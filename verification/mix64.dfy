/**
 The bit-mixing seed derivation of deterministic traffic (internal/mongo/workload_deterministic.go).
 A word is a 64-bit integer by its bits, as a number below 2^64; products and sums wrap.
 */
module Mix64 {
  const WORD: nat := 0x1_0000_0000_0000_0000

  type Word = n: nat | n < WORD

  const MUL_A: Word := 0xbf58476d1ce4e5b9
  const MUL_B: Word := 0x94d049bb133111eb
  const GOLDEN: Word := 0x9e3779b97f4a7c15

  // Inverses of the factors: each product is 1 modulo 2^64.
  const INV_A: Word := 0x96de1b173f119089
  const INV_B: Word := 0x319642b2d24d8ec3
  const INV_GOLDEN: Word := 0xf1de83e19937733d

  // ------------------------------------------------------------- exclusive or

  /** Bitwise exclusive or. */
  function Xor(a: nat, b: nat): nat
  {
    if a == 0 && b == 0 then 0 else 2 * Xor(a / 2, b / 2) + (if a % 2 == b % 2 then 0 else 1)
  }

  lemma {:induction false} XorZero(a: nat)
    ensures Xor(a, 0) == a && Xor(0, a) == a
  {
    if a != 0 {
      XorZero(a / 2);
    }
  }

  lemma {:induction false} XorSelf(a: nat)
    ensures Xor(a, a) == 0
  {
    if a != 0 {
      XorSelf(a / 2);
    }
  }

  lemma {:induction false} XorAssociative(a: nat, b: nat, c: nat)
    ensures Xor(Xor(a, b), c) == Xor(a, Xor(b, c))
  {
    if a != 0 || b != 0 || c != 0 {
      XorAssociative(a / 2, b / 2, c / 2);
      XorHalf(a, b);
      XorHalf(b, c);
    }
  }

  lemma XorHalf(a: nat, b: nat)
    ensures Xor(a, b) / 2 == Xor(a / 2, b / 2) && Xor(a, b) % 2 == if a % 2 == b % 2 then 0 else 1
  {
  }

  /** What is combined twice with the same word is unchanged. */
  lemma XorTwice(a: nat, b: nat)
    ensures Xor(Xor(a, b), b) == a
  {
    XorAssociative(a, b, b);
    XorSelf(b);
    XorZero(a);
  }

  function Pow2(k: nat): (p: nat)
    ensures p > 0
  {
    if k == 0 then 1 else 2 * Pow2(k - 1)
  }

  lemma {:induction false} XorBound(a: nat, b: nat, k: nat)
    requires a < Pow2(k) && b < Pow2(k)
    ensures Xor(a, b) < Pow2(k)
  {
    if k > 0 {
      XorBound(a / 2, b / 2, k - 1);
    }
  }

  lemma WordIsPow2()
    ensures Pow2(64) == WORD && Pow2(32) == 0x1_0000_0000
  {
    assert Pow2(4) == 0x10;
    assert Pow2(8) == 0x100;
    assert Pow2(12) == 0x1000;
    assert Pow2(16) == 0x1_0000;
    assert Pow2(24) == 0x100_0000;
    assert Pow2(32) == 0x1_0000_0000;
    assert Pow2(40) == 0x100_0000_0000;
    assert Pow2(48) == 0x1_0000_0000_0000;
    assert Pow2(56) == 0x100_0000_0000_0000;
  }

  function XorWord(a: Word, b: Word): Word
  {
    WordIsPow2();
    XorBound(a, b, 64);
    Xor(a, b)
  }

  // ------------------------------------------------------------------- shifts

  /** a >> k */
  function Shift(a: nat, k: nat): (r: nat)
    ensures r <= a
  {
    if k == 0 then a else Shift(a / 2, k - 1)
  }

  lemma {:induction false} ShiftXor(a: nat, b: nat, k: nat)
    ensures Shift(Xor(a, b), k) == Xor(Shift(a, k), Shift(b, k))
  {
    if k > 0 {
      XorHalf(a, b);
      ShiftXor(a / 2, b / 2, k - 1);
    }
  }

  lemma {:induction false} ShiftShift(a: nat, j: nat, k: nat)
    ensures Shift(Shift(a, j), k) == Shift(a, j + k)
  {
    if j > 0 {
      ShiftShift(a / 2, j - 1, k);
    }
  }

  /** a >> k is the quotient by 2^k. */
  lemma {:induction false} ShiftIsQuotient(a: nat, k: nat)
    ensures Pow2(k) * Shift(a, k) <= a < Pow2(k) * (Shift(a, k) + 1)
  {
    if k > 0 {
      ShiftIsQuotient(a / 2, k - 1);
      DoubleBounds(Pow2(k - 1), Shift(a / 2, k - 1), a);
    }
  }

  lemma DoubleBounds(p: nat, q: nat, a: nat)
    requires p * q <= a / 2 < p * (q + 1)
    ensures 2 * p * q <= a < 2 * p * (q + 1)
  {
    var x, y := p * q, p * (q + 1);
    assert 2 * p * q == 2 * x && 2 * p * (q + 1) == 2 * y;
  }

  lemma ShiftOut(a: nat, k: nat)
    requires a < Pow2(k)
    ensures Shift(a, k) == 0
  {
    ShiftIsQuotient(a, k);
    AtLeastOnce(Pow2(k), Shift(a, k));
  }

  lemma AtLeastOnce(p: nat, q: nat)
    ensures q > 0 ==> p * q >= p
  {
  }

  /** z ^ z >> k */
  function Fold(z: Word, k: nat): Word { XorWord(z, Shift(z, k)) }

  /** w ^ w >> k ^ w >> k >> k */
  function Unfold(w: Word, k: nat): Word { XorWord(w, XorWord(Shift(w, k), Shift(Shift(w, k), k))) }

  /** Folding by at least 22 bits is undone by unfolding, and the other way round. */
  lemma FoldInverse(z: Word, k: nat)
    requires 22 <= k
    ensures Unfold(Fold(z, k), k) == z && Fold(Unfold(z, k), k) == z
  {
    var h, hh := Shift(z, k), Shift(Shift(z, k), k);
    ThirdShift(z, k);
    FoldShift(z, h, k);
    FoldShift(h, hh, k);
    XorZero(hh);
    XorTwice(h, hh);
    XorTwice(z, h);
    UnfoldShift(z, h, hh, k);
    XorTwice(z, Xor(h, hh));
  }

  lemma ShiftedAway(z: Word, k: nat)
    requires k >= 64
    ensures Shift(z, k) == 0
  {
    WordIsPow2();
    ShiftOut(z, 64);
    ShiftShift(z, 64, k - 64);
  }

  lemma ThirdShift(z: Word, k: nat)
    requires 22 <= k
    ensures Shift(Shift(Shift(z, k), k), k) == 0
  {
    ShiftShift(Shift(z, k), k, k);
    ShiftShift(z, k, k + k);
    ShiftedAway(z, k + (k + k));
  }

  lemma FoldShift(a: nat, b: nat, k: nat)
    ensures Shift(Xor(a, b), k) == Xor(Shift(a, k), Shift(b, k))
  {
    ShiftXor(a, b, k);
  }

  lemma UnfoldShift(z: nat, h: nat, hh: nat, k: nat)
    requires h == Shift(z, k) && hh == Shift(h, k) && Shift(hh, k) == 0
    ensures Shift(Xor(z, Xor(h, hh)), k) == Xor(h, hh)
  {
    ShiftXor(z, Xor(h, hh), k);
    ShiftXor(h, hh, k);
    XorZero(hh);
  }

  // ---------------------------------------------------------------- wrapping products

  function Times(a: Word, b: Word): Word { (a * b) % WORD }

  function Plus(a: Word, b: Word): Word { (a + b) % WORD }

  lemma MultipleBound(m: nat, t: int)
    ensures t >= 1 ==> m * t >= m
    ensures t <= -1 ==> m * t + m <= 0
  {
  }

  lemma ModOffset(x: nat, m: nat, t: int)
    requires x < m
    ensures (x + m * t) % m == x
  {
    var q, r := (x + m * t) / m, (x + m * t) % m;
    assert m * (t - q) == r - x;
    MultipleBound(m, t - q);
  }

  lemma QuotientRest(a: nat, m: nat) returns (q: nat, r: nat)
    requires m > 0
    ensures a == m * q + r && r == a % m
  {
    q, r := a / m, a % m;
  }

  lemma Rearrange(x: int, c: int, d: int, m: int, q: int, p: int, r: int)
    requires x * c == m * q + r && c * d == m * p + 1
    ensures r * d == x + m * (x * p - q * d)
  {
    calc {
      r * d;
      (x * c - m * q) * d;
      (x * c) * d - (m * q) * d;
      x * (c * d) - m * (q * d);
      x * (m * p + 1) - m * (q * d);
      x + x * (m * p) - m * (q * d);
      x + m * (x * p) - m * (q * d);
      x + m * (x * p - q * d);
    }
  }

  lemma SameRest(a: nat, x: nat, m: nat, t: int)
    requires x < m && a == x + m * t
    ensures a % m == x
  {
    ModOffset(x, m, t);
  }

  lemma RestOfProduct(x: nat, c: nat, d: nat, m: nat, q: nat, r: nat, p: nat)
    requires x < m && x * c == m * q + r && c * d == m * p + 1
    ensures (r * d) % m == x
  {
    var a := r * d;
    var t := x * p - q * d;
    Rearrange(x, c, d, m, q, p, r);
    SameRest(a, x, m, t);
  }

  /** Multiplying by a factor and then by its inverse changes nothing. */
  lemma InverseFactor(x: nat, c: nat, d: nat, m: nat)
    requires x < m && (c * d) % m == 1
    ensures (((x * c) % m) * d) % m == x
  {
    var q, r := QuotientRest(x * c, m);
    var p, one := QuotientRest(c * d, m);
    RestOfProduct(x, c, d, m, q, r, p);
  }

  lemma InverseFactors()
    ensures (MUL_A * INV_A) % WORD == 1 && (INV_A * MUL_A) % WORD == 1
    ensures (MUL_B * INV_B) % WORD == 1 && (INV_B * MUL_B) % WORD == 1
    ensures (GOLDEN * INV_GOLDEN) % WORD == 1
  {
  }

  lemma TimesInverse(x: Word, c: Word, d: Word)
    requires (c * d) % WORD == 1
    ensures Times(Times(x, c), d) == x
  {
    InverseFactor(x, c, d, WORD);
  }

  // ---------------------------------------------------------------------- mix64

  function Mix(z: Word): Word
  {
    Fold(Times(Fold(Times(Fold(z, 30), MUL_A), 27), MUL_B), 31)
  }

  /** The inverse of Mix. */
  function Unmix(w: Word): Word
  {
    Unfold(Times(Unfold(Times(Unfold(w, 31), INV_B), 27), INV_A), 30)
  }

  /** Mix is a bijection on words. */
  lemma MixBijective(z: Word)
    ensures Unmix(Mix(z)) == z && Mix(Unmix(z)) == z
  {
    InverseFactors();
    FoldInverse(z, 30);
    TimesInverse(Fold(z, 30), MUL_A, INV_A);
    FoldInverse(Times(Fold(z, 30), MUL_A), 27);
    TimesInverse(Fold(Times(Fold(z, 30), MUL_A), 27), MUL_B, INV_B);
    FoldInverse(Times(Fold(Times(Fold(z, 30), MUL_A), 27), MUL_B), 31);
    var y := Times(Unfold(z, 31), INV_B);
    var x := Times(Unfold(y, 27), INV_A);
    FoldInverse(x, 30);
    TimesInverse(Unfold(y, 27), INV_A, MUL_A);
    FoldInverse(y, 27);
    TimesInverse(Unfold(z, 31), INV_B, MUL_B);
    FoldInverse(z, 31);
  }

  lemma MixInjective(a: Word, b: Word)
    ensures Mix(a) == Mix(b) <==> a == b
  {
    MixBijective(a);
    MixBijective(b);
  }

  lemma PlusInjective(a: Word, b: Word, c: Word)
    ensures Plus(a, c) == Plus(b, c) <==> a == b
  {
  }

  lemma XorInjective(a: Word, b: Word, c: Word)
    ensures XorWord(a, c) == XorWord(b, c) <==> a == b
    ensures XorWord(c, a) == XorWord(c, b) <==> a == b
  {
    XorTwice(a, c);
    XorTwice(b, c);
    XorAssociative(c, c, a);
    XorAssociative(c, c, b);
    XorSelf(c);
    XorZero(a);
    XorZero(b);
  }

  // ------------------------------------------------------------- operation seeds

  /** One link of the chain: the state so far mixed with one argument. */
  function Link(h: Word, x: Word, offset: Word): Word { Mix(XorWord(h, Plus(x, offset))) }

  lemma LinkInjective(h: Word, g: Word, x: Word, y: Word, offset: Word)
    ensures Link(h, x, offset) == Link(g, x, offset) <==> h == g
    ensures Link(h, x, offset) == Link(h, y, offset) <==> x == y
  {
    MixInjective(XorWord(h, Plus(x, offset)), XorWord(g, Plus(x, offset)));
    MixInjective(XorWord(h, Plus(x, offset)), XorWord(h, Plus(y, offset)));
    XorInjective(h, g, Plus(x, offset));
    XorInjective(Plus(x, offset), Plus(y, offset), h);
    PlusInjective(x, y, offset);
  }

  const ITERATION: Word := 0x632be59bd9b4e019
  const WORKER: Word := 0x85157af5d2a3e6b1
  const SEQUENCE: Word := 0xd6e8feb86659fd93

  /** deriveOpSeed: the seed of operation number op of a worker in an iteration. */
  function OpSeed(seed: Word, iteration: Word, worker: Word, op: Word): Word
  {
    Link(Link(Link(Mix(Plus(seed, GOLDEN)), iteration, ITERATION), worker, WORKER), op, SEQUENCE)
  }

  /** With the other arguments fixed, deriveOpSeed is injective in each of them. */
  lemma OpSeedInjective(seed: Word, seed': Word, iteration: Word, iteration': Word, worker: Word, worker': Word,
        op: Word, op': Word)
    ensures OpSeed(seed, iteration, worker, op) == OpSeed(seed', iteration, worker, op) <==> seed == seed'
    ensures OpSeed(seed, iteration, worker, op) == OpSeed(seed, iteration', worker, op) <==> iteration == iteration'
    ensures OpSeed(seed, iteration, worker, op) == OpSeed(seed, iteration, worker', op) <==> worker == worker'
    ensures OpSeed(seed, iteration, worker, op) == OpSeed(seed, iteration, worker, op') <==> op == op'
  {
    var s, s' := Mix(Plus(seed, GOLDEN)), Mix(Plus(seed', GOLDEN));
    MixInjective(Plus(seed, GOLDEN), Plus(seed', GOLDEN));
    PlusInjective(seed, seed', GOLDEN);
    LinkInjective(s, s', iteration, iteration', ITERATION);
    var i, i1, i2 := Link(s, iteration, ITERATION), Link(s', iteration, ITERATION), Link(s, iteration', ITERATION);
    LinkInjective(i, i1, worker, worker', WORKER);
    LinkInjective(i, i2, worker, worker', WORKER);
    var w := Link(i, worker, WORKER);
    LinkInjective(w, Link(i1, worker, WORKER), op, op', SEQUENCE);
    LinkInjective(w, Link(i2, worker, WORKER), op, op', SEQUENCE);
    LinkInjective(w, Link(i, worker', WORKER), op, op', SEQUENCE);
  }

  // ----------------------------------------------------------------- document ids

  /** uint64(j + 1) * golden, the part of an id that depends on the document's index. */
  function IndexTerm(j: nat): Word { Times((j + 1) % WORD, GOLDEN) }

  /** The last eight bytes of deterministicDocumentID; the first four are the same for all. */
  function DocumentID(opSeed: Word, j: nat): Word { Mix(XorWord(opSeed, IndexTerm(j))) }

  lemma IndexTermInjective(j: nat, k: nat)
    requires j < WORD && k < WORD
    ensures IndexTerm(j) == IndexTerm(k) <==> j == k
  {
    InverseFactors();
    TimesInjective((j + 1) % WORD, (k + 1) % WORD, GOLDEN, INV_GOLDEN);
    NextInjective(j, k);
  }

  lemma TimesInjective(x: Word, y: Word, c: Word, d: Word)
    requires (c * d) % WORD == 1
    ensures Times(x, c) == Times(y, c) <==> x == y
  {
    TimesInverse(x, c, d);
    TimesInverse(y, c, d);
  }

  lemma NextInjective(j: Word, k: Word)
    ensures (j + 1) % WORD == (k + 1) % WORD <==> j == k
  {
    assert j + 1 < WORD ==> (j + 1) % WORD == j + 1;
    assert k + 1 < WORD ==> (k + 1) % WORD == k + 1;
  }

  /** The documents of one insert operation have pairwise distinct ids. */
  lemma SameOperationIDs(seed: Word, iteration: Word, worker: Word, op: Word, j: nat, k: nat)
    requires j < WORD && k < WORD
    ensures DocumentID(OpSeed(seed, iteration, worker, op), j) == DocumentID(OpSeed(seed, iteration, worker, op), k)
        <==> j == k
  {
    var s := OpSeed(seed, iteration, worker, op);
    MixInjective(XorWord(s, IndexTerm(j)), XorWord(s, IndexTerm(k)));
    XorInjective(IndexTerm(j), IndexTerm(k), s);
    IndexTermInjective(j, k);
  }

  /** So have the j-th documents of different operations of one worker in one iteration. */
  lemma OtherOperationIDs(seed: Word, iteration: Word, worker: Word, op: Word, op': Word, j: nat)
    ensures DocumentID(OpSeed(seed, iteration, worker, op), j) == DocumentID(OpSeed(seed, iteration, worker, op'), j)
        <==> op == op'
  {
    var s, t := OpSeed(seed, iteration, worker, op), OpSeed(seed, iteration, worker, op');
    MixInjective(XorWord(s, IndexTerm(j)), XorWord(t, IndexTerm(j)));
    XorInjective(s, t, IndexTerm(j));
    OpSeedInjective(seed, seed, iteration, iteration, worker, worker, op, op');
  }

  /** In general two ids are equal exactly when the seeds differ by the difference of the index terms. */
  lemma IDCollision(s: Word, j: nat, t: Word, k: nat)
    ensures DocumentID(s, j) == DocumentID(t, k) <==> XorWord(s, t) == XorWord(IndexTerm(j), IndexTerm(k))
  {
    var a, b := IndexTerm(j), IndexTerm(k);
    MixInjective(XorWord(s, a), XorWord(t, b));
    XorShuffle(s, a, t, b);
  }

  lemma XorShuffle(s: Word, a: Word, t: Word, b: Word)
    ensures XorWord(s, a) == XorWord(t, b) <==> XorWord(s, t) == XorWord(a, b)
  {
    // Both sides say that s, a, t and b combine to zero.
    XorCommutes(a, t);
    XorEqual(XorWord(s, a), XorWord(t, b));
    XorEqual(XorWord(s, t), XorWord(a, b));
    XorAssociative(Xor(s, a), t, b);
    XorAssociative(s, a, t);
    XorAssociative(s, t, a);
    XorAssociative(Xor(s, t), a, b);
  }

  lemma {:induction false} XorCommutes(a: nat, b: nat)
    ensures Xor(a, b) == Xor(b, a)
  {
    if a != 0 || b != 0 {
      XorCommutes(a / 2, b / 2);
    }
  }

  lemma XorEqual(a: nat, b: nat)
    ensures a == b <==> Xor(a, b) == 0
  {
    XorSelf(a);
    XorTwice(a, b);
    XorZero(b);
  }
}
