/** How far apart two flipped bits can be before the frame error control field misses them: the period of the
  * CRC register under shifting, which is the order of x modulo the generator polynomial. */
module CrcPeriod {
  import opened Octets
  import opened Crc

  /** The register of the constant polynomial 1, and of x^15. */
  const ONE: Register := Zeros(15) + [true]
  const TOP: Register := [true] + Zeros(15)

  // ---- shifting is linear ----

  lemma {:induction false} StepsXor(n: nat, a: Register, b: Register)
    ensures Steps(n, Xor(a, b)) == Xor(Steps(n, a), Steps(n, b))
  {
    if n > 0 {
      StepXor(a, b);
      StepsXor(n - 1, Step(a), Step(b));
    }
  }

  lemma {:induction false} StepsAdd(m: nat, n: nat, r: Register)
    ensures Steps(m + n, r) == Steps(n, Steps(m, r))
  {
    if m > 0 {
      StepsAdd(m - 1, n, Step(r));
    }
  }

  lemma {:induction false} FeedXor(a: Register, b: Register, x: seq<bool>, y: seq<bool>)
    requires |x| == |y|
    ensures Feed(Xor(a, b), Xor(x, y)) == Xor(Feed(a, x), Feed(b, y))
    decreases |x|
  {
    if x != [] {
      var c, d := [a[0] != x[0]] + a[1..], [b[0] != y[0]] + b[1..];
      var both := Xor(a, b);
      assert [both[0] != Xor(x, y)[0]] + both[1..] == Xor(c, d);
      assert Xor(x, y)[1..] == Xor(x[1..], y[1..]);
      StepXor(c, d);
      FeedXor(Step(c), Step(d), x[1..], y[1..]);
    }
  }

  lemma {:induction false} FeedZeros(r: Register, n: nat)
    ensures Feed(r, Zeros(n)) == Steps(n, r)
    decreases n
  {
    if n > 0 {
      assert Zeros(n)[1..] == Zeros(n - 1) && [r[0] != false] + r[1..] == r;
      FeedZeros(Step(r), n - 1);
    }
  }

  lemma FeedOne(r: Register)
    ensures Feed(r, [true]) == Step(Xor(r, TOP))
  {
    assert [r[0] != true] + r[1..] == Xor(r, TOP);
    assert [true][1..] == [];
  }

  // ---- products of polynomials modulo the generator ----

  /** The polynomial with these coefficients, highest first, times b. */
  function Times(bits: seq<bool>, b: Register): Register {
    if bits == [] then Zeros(16)
    else
      var n := |bits| - 1;
      var shifted := Step(Times(bits[..n], b));
      if bits[n] then Xor(shifted, b) else shifted
  }

  lemma {:induction false} StepsTimes(n: nat, bits: seq<bool>, b: Register)
    ensures Steps(n, Times(bits, b)) == Times(bits, Steps(n, b))
    decreases |bits|
  {
    if bits == [] {
      StepsOfZero(n);
    } else {
      var front := bits[..|bits| - 1];
      var t := Times(front, b);
      StepsTimes(n, front, b);
      StepsAdd(1, n, t);
      StepsAdd(n, 1, t);
      assert Steps(1, t) == Step(t);
      StepsXor(n, Step(t), b);
    }
  }

  /** A polynomial of degree below 16 times 1 is itself. */
  lemma {:induction false} TimesOne(r: Register, k: nat)
    requires k <= 16
    ensures Times(r[..k], ONE) == Zeros(16 - k) + r[..k]
  {
    hide Step, Zeros, Xor;
    if k == 0 {
      assert Zeros(16) + r[..0] == Zeros(16);
    } else {
      TimesOne(r, k - 1);
      assert r[..k][..k - 1] == r[..k - 1] && r[..k] == r[..k - 1] + [r[k - 1]];
      ShiftIn(r[..k - 1], r[k - 1]);
    }
  }

  lemma ShiftIn(front: seq<bool>, bit: bool)
    requires |front| < 16
    ensures var s := Step(Zeros(16 - |front|) + front);
            (if bit then Xor(s, ONE) else s) == Zeros(15 - |front|) + (front + [bit])
  {
    var n := |front|;
    var t := Zeros(16 - n) + front;
    var s := t[1..] + [false];
    assert !t[0] && Step(t) == s;
    assert s == Zeros(15 - n) + (front + [false]);
    if bit {
      assert Xor(s, ONE) == Zeros(15 - n) + (front + [true]);
    }
  }

  /** Shifting by n is multiplying by x^n. */
  lemma StepsIsTimes(n: nat, r: Register)
    ensures Steps(n, r) == Times(r, Steps(n, ONE))
  {
    TimesOne(r, 16);
    assert r[..16] == r && Zeros(0) + r == r;
    StepsTimes(n, r, ONE);
  }

  // ---- the same on four hexadecimal digits, where products can be worked out ----

  datatype Nibble = Nibble(b3: bool, b2: bool, b1: bool, b0: bool)
  datatype Word = Word(n3: Nibble, n2: Nibble, n1: Nibble, n0: Nibble)

  const X0 := Nibble(false, false, false, false)
  const X1 := Nibble(false, false, false, true)
  const X2 := Nibble(false, false, true, false)
  const X3 := Nibble(false, false, true, true)
  const X4 := Nibble(false, true, false, false)
  const X5 := Nibble(false, true, false, true)
  const X6 := Nibble(false, true, true, false)
  const X7 := Nibble(false, true, true, true)
  const X8 := Nibble(true, false, false, false)
  const X9 := Nibble(true, false, false, true)
  const XA := Nibble(true, false, true, false)
  const XB := Nibble(true, false, true, true)
  const XC := Nibble(true, true, false, false)
  const XD := Nibble(true, true, false, true)
  const XE := Nibble(true, true, true, false)
  const XF := Nibble(true, true, true, true)

  const ZERO_WORD := Word(X0, X0, X0, X0)
  const ONE_WORD := Word(X0, X0, X0, X1)

  function NibbleBits(n: Nibble): (bits: seq<bool>)
    ensures |bits| == 4
  {
    [n.b3, n.b2, n.b1, n.b0]
  }

  function WordBits(w: Word): Register {
    NibbleBits(w.n3) + NibbleBits(w.n2) + NibbleBits(w.n1) + NibbleBits(w.n0)
  }

  function XorNibble(a: Nibble, b: Nibble): Nibble {
    Nibble(a.b3 != b.b3, a.b2 != b.b2, a.b1 != b.b1, a.b0 != b.b0)
  }

  function XorWord(a: Word, b: Word): Word {
    Word(XorNibble(a.n3, b.n3), XorNibble(a.n2, b.n2), XorNibble(a.n1, b.n1), XorNibble(a.n0, b.n0))
  }

  function Shift(n: Nibble, carry: bool): Nibble {
    Nibble(n.b2, n.b1, n.b0, carry)
  }

  function StepWord(w: Word): Word {
    if w.n3.b3 then XorWord(ShiftWord(w), Word(X1, X0, X2, X1)) else ShiftWord(w)
  }

  /** One more coefficient of the left factor. */
  function Extend(product: Word, bit: bool, b: Word): Word {
    if bit then XorWord(StepWord(product), b) else StepWord(product)
  }

  function ExtendNibble(product: Word, n: Nibble, b: Word): Word {
    Extend(Extend(Extend(Extend(product, n.b3, b), n.b2, b), n.b1, b), n.b0, b)
  }

  function TimesWord(a: Word, b: Word): Word {
    ExtendNibble(ExtendNibble(ExtendNibble(ExtendNibble(ZERO_WORD, a.n3, b), a.n2, b), a.n1, b), a.n0, b)
  }

  lemma XorNibbleBits(a: Nibble, b: Nibble)
    ensures NibbleBits(XorNibble(a, b)) == Xor(NibbleBits(a), NibbleBits(b))
  {
  }

  lemma XorConcat(a: seq<bool>, b: seq<bool>, c: seq<bool>, d: seq<bool>)
    requires |a| == |c| && |b| == |d|
    ensures Xor(a + b, c + d) == Xor(a, c) + Xor(b, d)
  {
  }

  lemma XorWordBits(a: Word, b: Word)
    ensures WordBits(XorWord(a, b)) == Xor(WordBits(a), WordBits(b))
  {
    XorNibbleBits(a.n3, b.n3);
    XorNibbleBits(a.n2, b.n2);
    XorNibbleBits(a.n1, b.n1);
    XorNibbleBits(a.n0, b.n0);
    hide NibbleBits, XorNibble, Xor;
    var a3, a2, a1, a0 := NibbleBits(a.n3), NibbleBits(a.n2), NibbleBits(a.n1), NibbleBits(a.n0);
    var b3, b2, b1, b0 := NibbleBits(b.n3), NibbleBits(b.n2), NibbleBits(b.n1), NibbleBits(b.n0);
    XorConcat(a3, a2, b3, b2);
    XorConcat(a3 + a2, a1, b3 + b2, b1);
    XorConcat(a3 + a2 + a1, a0, b3 + b2 + b1, b0);
  }

  function ShiftWord(w: Word): Word {
    Word(Shift(w.n3, w.n2.b3), Shift(w.n2, w.n1.b3), Shift(w.n1, w.n0.b3), Shift(w.n0, false))
  }

  /** A nibble moved one place to the left, the first bit of what follows coming in. */
  lemma ShiftNibbleBits(n: Nibble, carry: bool, rest: seq<bool>, moved: seq<bool>)
    requires rest == [carry] + moved
    ensures NibbleBits(n) + rest == [n.b3] + (NibbleBits(Shift(n, carry)) + moved)
  {
    var all := NibbleBits(n) + rest;
    assert all[..5] == NibbleBits(n) + [carry] == [n.b3] + NibbleBits(Shift(n, carry));
    assert all == all[..5] + moved;
  }

  lemma ShiftWordBits(w: Word)
    ensures WordBits(ShiftWord(w)) == WordBits(w)[1..] + [false]
  {
    var s := ShiftWord(w);
    var s0 := NibbleBits(s.n0) + [];
    var s1 := NibbleBits(s.n1) + s0;
    var s2 := NibbleBits(s.n2) + s1;
    var s3 := NibbleBits(s.n3) + s2;
    var r0 := NibbleBits(w.n0) + [false];
    var r1 := NibbleBits(w.n1) + r0;
    var r2 := NibbleBits(w.n2) + r1;
    ShiftNibbleBits(w.n0, false, [false], []);
    ShiftNibbleBits(w.n1, w.n0.b3, r0, s0);
    ShiftNibbleBits(w.n2, w.n1.b3, r1, s1);
    ShiftNibbleBits(w.n3, w.n2.b3, r2, s2);
    hide NibbleBits, Shift;
    Regroup(NibbleBits(w.n3), NibbleBits(w.n2), NibbleBits(w.n1), NibbleBits(w.n0), [false]);
    Regroup(NibbleBits(s.n3), NibbleBits(s.n2), NibbleBits(s.n1), NibbleBits(s.n0), []);
    TailOf(WordBits(w), w.n3.b3, WordBits(s));
  }

  lemma Regroup(a: seq<bool>, b: seq<bool>, c: seq<bool>, d: seq<bool>, e: seq<bool>)
    ensures a + (b + (c + (d + e))) == (a + b + c + d) + e
  {
  }

  lemma TailOf(x: seq<bool>, first: bool, y: seq<bool>)
    requires x != [] && x + [false] == [first] + (y + [])
    ensures y == x[1..] + [false]
  {
    assert (x + [false])[1..] == x[1..] + [false];
    assert ([first] + (y + []))[1..] == y;
  }

  lemma PolyWord()
    ensures WordBits(Word(X1, X0, X2, X1)) == POLY && WordBits(ONE_WORD) == ONE && WordBits(ZERO_WORD) == Zeros(16)
  {
  }

  lemma TopBit(w: Word)
    ensures WordBits(w)[0] == w.n3.b3
  {
  }

  lemma StepWordBits(w: Word)
    ensures WordBits(StepWord(w)) == Step(WordBits(w))
  {
    hide WordBits, ShiftWord, XorWord;
    TopBit(w);
    ShiftWordBits(w);
    PolyWord();
    XorWordBits(ShiftWord(w), Word(X1, X0, X2, X1));
  }

  lemma ExtendBits(front: seq<bool>, product: Word, bit: bool, b: Word)
    requires WordBits(product) == Times(front, WordBits(b))
    ensures WordBits(Extend(product, bit, b)) == Times(front + [bit], WordBits(b))
  {
    hide WordBits, StepWord, XorWord;
    var bits := front + [bit];
    assert bits[..|bits| - 1] == front;
    StepWordBits(product);
    XorWordBits(StepWord(product), b);
  }

  lemma ExtendNibbleBits(front: seq<bool>, product: Word, n: Nibble, b: Word)
    requires WordBits(product) == Times(front, WordBits(b))
    ensures WordBits(ExtendNibble(product, n, b)) == Times(front + NibbleBits(n), WordBits(b))
  {
    hide WordBits, Extend, Times;
    var p3 := Extend(product, n.b3, b);
    var p2 := Extend(p3, n.b2, b);
    ExtendBits(front, product, n.b3, b);
    ExtendBits(front + [n.b3], p3, n.b2, b);
    ExtendBits(front + [n.b3] + [n.b2], p2, n.b1, b);
    ExtendBits(front + [n.b3] + [n.b2] + [n.b1], Extend(p2, n.b1, b), n.b0, b);
    assert front + [n.b3] + [n.b2] + [n.b1] + [n.b0] == front + NibbleBits(n);
  }

  lemma TimesWordBits(a: Word, b: Word)
    ensures WordBits(TimesWord(a, b)) == Times(WordBits(a), WordBits(b))
  {
    PolyWord();
    assert WordBits(a) == [] + NibbleBits(a.n3) + NibbleBits(a.n2) + NibbleBits(a.n1) + NibbleBits(a.n0);
    hide WordBits, ExtendNibble, NibbleBits;
    var p3 := ExtendNibble(ZERO_WORD, a.n3, b);
    var p2 := ExtendNibble(p3, a.n2, b);
    var p1 := ExtendNibble(p2, a.n1, b);
    ExtendNibbleBits([], ZERO_WORD, a.n3, b);
    ExtendNibbleBits([] + NibbleBits(a.n3), p3, a.n2, b);
    ExtendNibbleBits([] + NibbleBits(a.n3) + NibbleBits(a.n2), p2, a.n1, b);
    ExtendNibbleBits([] + NibbleBits(a.n3) + NibbleBits(a.n2) + NibbleBits(a.n1), p1, a.n0, b);
  }

  /** The word of x^n. */
  predicate Power(n: nat, w: Word) {
    Steps(n, ONE) == WordBits(w)
  }

  lemma PowerProduct(m: nat, a: Word, n: nat, b: Word, c: Word)
    requires Power(m, a) && Power(n, b) && TimesWord(a, b) == c
    ensures Power(m + n, c)
  {
    hide WordBits, TimesWord, Times;
    StepsAdd(m, n, ONE);
    StepsIsTimes(n, WordBits(a));
    TimesWordBits(a, b);
  }

  lemma PowerOne(n: nat, w: Word)
    requires Power(n, w)
    ensures Steps(n, ONE) == ONE <==> w == ONE_WORD
  {
    PolyWord();
    hide WordBits;
    if WordBits(w) == ONE {
      WordInjective(w, ONE_WORD);
    }
  }

  lemma WordInjective(a: Word, b: Word)
    requires WordBits(a) == WordBits(b)
    ensures a == b
  {
    var x, y := WordBits(a), WordBits(b);
    assert x[..4] == NibbleBits(a.n3) && y[..4] == NibbleBits(b.n3);
    assert x[4..8] == NibbleBits(a.n2) && y[4..8] == NibbleBits(b.n2);
    assert x[8..12] == NibbleBits(a.n1) && y[8..12] == NibbleBits(b.n1);
    assert x[12..16] == NibbleBits(a.n0) && y[12..16] == NibbleBits(b.n0);
    NibbleInjective(a.n3, b.n3);
    NibbleInjective(a.n2, b.n2);
    NibbleInjective(a.n1, b.n1);
    NibbleInjective(a.n0, b.n0);
  }

  lemma NibbleInjective(a: Nibble, b: Nibble)
    requires NibbleBits(a) == NibbleBits(b)
    ensures a == b
  {
    var x, y := NibbleBits(a), NibbleBits(b);
    assert x[0] == y[0] && x[1] == y[1] && x[2] == y[2] && x[3] == y[3];
  }

  // ---- the powers of x that matter ----

  lemma Power1()
    ensures Power(1, Word(X0, X0, X0, X2))
  {
    PolyWord();
    StepWordBits(ONE_WORD);
    assert StepWord(ONE_WORD) == Word(X0, X0, X0, X2);
    assert Steps(1, ONE) == Step(ONE);
  }

  lemma Power2()
    ensures Power(2, Word(X0, X0, X0, X4))
  {
    hide Power;
    Power1();
    PowerProduct(1, Word(X0, X0, X0, X2), 1, Word(X0, X0, X0, X2),
                 Word(X0, X0, X0, X4));
  }

  lemma Power4()
    ensures Power(4, Word(X0, X0, X1, X0))
  {
    hide Power;
    Power2();
    PowerProduct(2, Word(X0, X0, X0, X4), 2, Word(X0, X0, X0, X4),
                 Word(X0, X0, X1, X0));
  }

  lemma Power8()
    ensures Power(8, Word(X0, X1, X0, X0))
  {
    hide Power;
    Power4();
    PowerProduct(4, Word(X0, X0, X1, X0), 4, Word(X0, X0, X1, X0),
                 Word(X0, X1, X0, X0));
  }

  lemma Power16()
    ensures Power(16, Word(X1, X0, X2, X1))
  {
    hide Power;
    Power8();
    PowerProduct(8, Word(X0, X1, X0, X0), 8, Word(X0, X1, X0, X0),
                 Word(X1, X0, X2, X1));
  }

  lemma Power32()
    ensures Power(32, Word(X3, X7, X3, X0))
  {
    hide Power;
    Power16();
    PowerProduct(16, Word(X1, X0, X2, X1), 16, Word(X1, X0, X2, X1),
                 Word(X3, X7, X3, X0));
  }

  lemma Power64()
    ensures Power(64, Word(XB, X8, X6, X1))
  {
    hide Power;
    Power32();
    PowerProduct(32, Word(X3, X7, X3, X0), 32, Word(X3, X7, X3, X0),
                 Word(XB, X8, X6, X1));
  }

  lemma Power128()
    ensures Power(128, Word(XA, XE, XF, XC))
  {
    hide Power;
    Power64();
    PowerProduct(64, Word(XB, X8, X6, X1), 64, Word(XB, X8, X6, X1),
                 Word(XA, XE, XF, XC));
  }

  lemma Power256()
    ensures Power(256, Word(X8, XE, X2, X9))
  {
    hide Power;
    Power128();
    PowerProduct(128, Word(XA, XE, XF, XC), 128, Word(XA, XE, XF, XC),
                 Word(X8, XE, X2, X9));
  }

  lemma Power512()
    ensures Power(512, Word(X1, X3, XF, XC))
  {
    hide Power;
    Power256();
    PowerProduct(256, Word(X8, XE, X2, X9), 256, Word(X8, XE, X2, X9),
                 Word(X1, X3, XF, XC));
  }

  lemma Power1024()
    ensures Power(1024, Word(X3, X6, XC, X4))
  {
    hide Power;
    Power512();
    PowerProduct(512, Word(X1, X3, XF, XC), 512, Word(X1, X3, XF, XC),
                 Word(X3, X6, XC, X4));
  }

  lemma Power2048()
    ensures Power(2048, Word(XF, XD, X5, X0))
  {
    hide Power;
    Power1024();
    PowerProduct(1024, Word(X3, X6, XC, X4), 1024, Word(X3, X6, XC, X4),
                 Word(XF, XD, X5, X0));
  }

  lemma Power4096()
    ensures Power(4096, Word(XA, XA, X9, XE))
  {
    hide Power;
    Power2048();
    PowerProduct(2048, Word(XF, XD, X5, X0), 2048, Word(XF, XD, X5, X0),
                 Word(XA, XA, X9, XE));
  }

  lemma Power8192()
    ensures Power(8192, Word(X8, X8, X1, XC))
  {
    hide Power;
    Power4096();
    PowerProduct(4096, Word(XA, XA, X9, XE), 4096, Word(XA, XA, X9, XE),
                 Word(X8, X8, X1, XC));
  }

  lemma Power16384()
    ensures Power(16384, Word(X4, X4, X5, X8))
  {
    hide Power;
    Power8192();
    PowerProduct(8192, Word(X8, X8, X1, XC), 8192, Word(X8, X8, X1, XC),
                 Word(X4, X4, X5, X8));
  }

  lemma Power32768()
    ensures Power(32768, Word(X0, X0, X0, X2))
  {
    hide Power;
    Power16384();
    PowerProduct(16384, Word(X4, X4, X5, X8), 16384, Word(X4, X4, X5, X8),
                 Word(X0, X0, X0, X2));
  }

  lemma Power192()
    ensures Power(192, Word(X6, X5, X0, XB))
  {
    hide Power;
    Power128();
    Power64();
    PowerProduct(128, Word(XA, XE, XF, XC), 64, Word(XB, X8, X6, X1),
                 Word(X6, X5, X0, XB));
  }

  lemma Power208()
    ensures Power(208, Word(X4, X5, XB, X4))
  {
    hide Power;
    Power192();
    Power16();
    PowerProduct(192, Word(X6, X5, X0, XB), 16, Word(X1, X0, X2, X1),
                 Word(X4, X5, XB, X4));
  }

  lemma Power216()
    ensures Power(216, Word(XA, XC, X6, X1))
  {
    hide Power;
    Power208();
    Power8();
    PowerProduct(208, Word(X4, X5, XB, X4), 8, Word(X0, X1, X0, X0),
                 Word(XA, XC, X6, X1));
  }

  lemma Power217()
    ensures Power(217, Word(X4, X8, XE, X3))
  {
    hide Power;
    Power216();
    Power1();
    PowerProduct(216, Word(XA, XC, X6, X1), 1, Word(X0, X0, X0, X2),
                 Word(X4, X8, XE, X3));
  }

  lemma Power1056()
    ensures Power(1056, Word(XF, X1, X4, X7))
  {
    hide Power;
    Power1024();
    Power32();
    PowerProduct(1024, Word(X3, X6, XC, X4), 32, Word(X3, X7, X3, X0),
                 Word(XF, X1, X4, X7));
  }

  lemma Power1057()
    ensures Power(1057, Word(XF, X2, XA, XF))
  {
    hide Power;
    Power1056();
    Power1();
    PowerProduct(1056, Word(XF, X1, X4, X7), 1, Word(X0, X0, X0, X2),
                 Word(XF, X2, XA, XF));
  }

  lemma Power4608()
    ensures Power(4608, Word(X5, X4, XA, X0))
  {
    hide Power;
    Power4096();
    Power512();
    PowerProduct(4096, Word(XA, XA, X9, XE), 512, Word(X1, X3, XF, XC),
                 Word(X5, X4, XA, X0));
  }

  lemma Power4672()
    ensures Power(4672, Word(X0, X1, X0, X6))
  {
    hide Power;
    Power4608();
    Power64();
    PowerProduct(4608, Word(X5, X4, XA, X0), 64, Word(XB, X8, X6, X1),
                 Word(X0, X1, X0, X6));
  }

  lemma Power4680()
    ensures Power(4680, Word(X1, X6, X2, X1))
  {
    hide Power;
    Power4672();
    Power8();
    PowerProduct(4672, Word(X0, X1, X0, X6), 8, Word(X0, X1, X0, X0),
                 Word(X1, X6, X2, X1));
  }

  lemma Power4681()
    ensures Power(4681, Word(X2, XC, X4, X2))
  {
    hide Power;
    Power4680();
    Power1();
    PowerProduct(4680, Word(X1, X6, X2, X1), 1, Word(X0, X0, X0, X2),
                 Word(X2, XC, X4, X2));
  }

  // ---- the period ----

  const PERIOD: nat := 32767

  /** Shifting k times brings every register back. */
  predicate Returns(k: nat) {
    Steps(k, ONE) == ONE
  }

  /** x^32768 is x, while 32767 divided by none of its prime factors 7, 31 and 151 gives a return. */
  lemma Landmarks()
    ensures Returns(PERIOD) && !Returns(217) && !Returns(1057) && !Returns(4681)
  {
    hide Power, WordBits;
    Power1();
    Power32768();
    SameShift(PERIOD);
    Power217();
    Power1057();
    Power4681();
    PowerOne(217, Word(X4, X8, XE, X3));
    PowerOne(1057, Word(XF, X2, XA, XF));
    PowerOne(4681, Word(X2, XC, X4, X2));
  }

  lemma SameShift(k: nat)
    requires Power(1, Word(X0, X0, X0, X2)) && Power(k + 1, Word(X0, X0, X0, X2))
    ensures Returns(k)
  {
    hide WordBits;
    StepsAdd(k, 1, ONE);
    StepsInjective(1, Steps(k, ONE), ONE);
  }

  lemma {:induction false} ReturnsMultiple(k: nat, times: nat)
    requires Returns(k)
    ensures Returns(k * times)
    decreases times
  {
    if times > 0 {
      ReturnsMultiple(k, times - 1);
      StepsAdd(k * (times - 1), k, ONE);
      assert k * times == k * (times - 1) + k;
    }
  }

  lemma ReturnsDifference(a: nat, b: nat)
    requires Returns(a) && Returns(b) && b <= a
    ensures Returns(a - b)
  {
    StepsAdd(a - b, b, ONE);
    StepsInjective(b, Steps(a - b, ONE), ONE);
  }

  predicate Divides(d: nat, n: nat)
    requires d > 0
  {
    n % d == 0
  }

  /** Two returns have a common divisor that is a return. */
  lemma {:induction false} CommonReturn(a: nat, b: nat) returns (g: nat)
    requires a > 0 && b > 0 && Returns(a) && Returns(b)
    ensures 0 < g <= a && Returns(g) && Divides(g, a) && Divides(g, b)
    decreases a + b
  {
    if a == b {
      g := a;
    } else if a > b {
      ReturnsDifference(a, b);
      g := CommonReturn(a - b, b);
      DividesSum(g, a - b, b);
    } else {
      ReturnsDifference(b, a);
      g := CommonReturn(a, b - a);
      DividesSum(g, b - a, a);
    }
  }

  lemma DividesSum(d: nat, x: nat, y: nat)
    requires d > 0 && Divides(d, x) && Divides(d, y)
    ensures Divides(d, x + y)
  {
    var i, j := x / d, y / d;
    assert x == d * i && y == d * j;
    assert x + y == d * (i + j);
    MultipleDivides(d, i + j);
  }

  lemma MultipleDivides(d: nat, k: nat)
    requires d > 0
    ensures Divides(d, d * k)
  {
    var q, r := d * k / d, d * k % d;
    assert d * (k - q) == r;
    assert k - q >= 1 ==> d * (k - q) >= d;
    assert k - q <= -1 ==> d * (k - q) <= -1 * d;
  }

  lemma SmallFactor(d: nat, h: nat)
    requires 2 <= d <= 181 && d * h == PERIOD
    ensures d == 7 || d == 31 || d == 151
  {
  }

  lemma ProperDivisor(g: nat)
    requires 0 < g < PERIOD && Divides(g, PERIOD)
    ensures Divides(g, 217) || Divides(g, 1057) || Divides(g, 4681)
  {
    var h := PERIOD / g;
    assert g * h == PERIOD;
    if g <= 181 {
      if g > 1 {
        SmallFactor(g, h);
        assert 7 * 31 == 217 && 151 * 7 == 1057;
      }
    } else {
      QuotientSmall(g, h);
      SmallFactor(h, g);
    }
  }

  lemma QuotientSmall(g: nat, h: nat)
    requires 181 < g < PERIOD && g * h == PERIOD
    ensures 2 <= h <= 181
  {
  }

  lemma NoEarlyReturn(k: nat)
    requires 0 < k < PERIOD
    ensures !Returns(k)
  {
    if Returns(k) {
      Landmarks();
      var g := CommonReturn(k, PERIOD);
      ProperDivisor(g);
      DivisorReturns(g);
    }
  }

  lemma DivisorReturns(g: nat)
    requires g > 0 && Returns(g) && (Divides(g, 217) || Divides(g, 1057) || Divides(g, 4681))
    ensures Returns(217) || Returns(1057) || Returns(4681)
  {
    if Divides(g, 217) {
      ReturnsTo(g, 217);
    } else if Divides(g, 1057) {
      ReturnsTo(g, 1057);
    } else {
      ReturnsTo(g, 4681);
    }
  }

  lemma ReturnsTo(g: nat, n: nat)
    requires g > 0 && Returns(g) && Divides(g, n)
    ensures Returns(n)
  {
    ReturnsMultiple(g, n / g);
    assert g * (n / g) == n;
  }

  /** x has order 32767 modulo the generator: shifting k times is the identity exactly when 32767 divides k. */
  lemma OrderExact(k: nat)
    ensures Returns(k) <==> k % PERIOD == 0
  {
    Landmarks();
    var r, q := k % PERIOD, k / PERIOD;
    ReturnsMultiple(PERIOD, q);
    assert k == PERIOD * q + r;
    if r > 0 {
      NoEarlyReturn(r);
      if Returns(k) {
        ReturnsDifference(k, PERIOD * q);
      }
    }
  }

  // ---- two flipped bits ----

  /** The two bit strings differ at i and j and nowhere else. */
  ghost predicate DiffersAt(x: seq<bool>, y: seq<bool>, i: nat, j: nat) {
    && |x| == |y| && i < j < |x|
    && forall k :: 0 <= k < |x| ==> (x[k] != y[k] <==> k == i || k == j)
  }

  lemma TwoOnes(x: seq<bool>, y: seq<bool>, i: nat, j: nat)
    requires DiffersAt(x, y, i, j)
    ensures Xor(x, y) == Zeros(i) + [true] + Zeros(j - i - 1) + [true] + Zeros(|x| - j - 1)
  {
  }

  predicate TopReturns(k: nat) {
    Steps(k, TOP) == TOP
  }

  predicate WholePeriods(k: nat) {
    k % PERIOD == 0
  }

  lemma TopReturnsExactly(k: nat)
    ensures TopReturns(k) <==> WholePeriods(k)
  {
    OrderExact(k);
    TopIsPower();
    StepsAdd(15, k, ONE);
    StepsAdd(k, 15, ONE);
    if Steps(k, TOP) == TOP {
      StepsInjective(15, Steps(k, ONE), ONE);
    }
  }

  lemma TopIsPower()
    ensures Steps(15, ONE) == TOP
  {
    ShiftUp(15);
    assert Zeros(0) + [true] + Zeros(15) == TOP;
  }

  lemma {:induction false} ShiftUp(k: nat)
    requires k <= 15
    ensures Steps(k, ONE) == Zeros(15 - k) + [true] + Zeros(k)
  {
    if k == 0 {
      assert Zeros(15) + [true] + Zeros(0) == ONE;
    } else {
      ShiftUp(k - 1);
      StepsLast(k - 1, ONE);
      var r := Zeros(16 - k) + [true] + Zeros(k - 1);
      assert !r[0] && r[1..] + [false] == Zeros(15 - k) + [true] + Zeros(k);
    }
  }

  /** What the register makes of a difference in two places. */
  lemma FeedTwoOnes(i: nat, gap: nat, after: nat)
    ensures Feed(Zeros(16), Zeros(i) + [true] + Zeros(gap) + [true] + Zeros(after))
         == Steps(after + 1, Xor(Steps(gap + 1, TOP), TOP))
  {
    var z := Zeros(16);
    FeedConcat(z, Zeros(i) + [true] + Zeros(gap) + [true], Zeros(after));
    FeedConcat(z, Zeros(i) + [true] + Zeros(gap), [true]);
    FeedConcat(z, Zeros(i) + [true], Zeros(gap));
    FeedConcat(z, Zeros(i), [true]);
    FeedZeros(z, i);
    StepsOfZero(i);
    FeedOne(z);
    assert Xor(z, TOP) == TOP;
    FeedZeros(Step(TOP), gap);
    FeedOne(Steps(gap + 1, TOP));
    FeedZeros(Step(Xor(Steps(gap + 1, TOP), TOP)), after);
  }

  /** A frame with a matching trailer and two of its bits flipped still matches exactly when the two bits are a
    * multiple of 32767 apart. */
  lemma TwoBitErrors(frame: seq<byte>, received: seq<byte>, i: nat, j: nat)
    requires 2 <= |frame| == |received| && TrailerMatches(frame) && DiffersAt(Bits(frame), Bits(received), i, j)
    ensures TrailerMatches(received) <==> WholePeriods(j - i)
  {
    hide Bits, TrailerMatches, Xor, Zeros, TopReturns, WholePeriods;
    ResidueIsDifference(frame, received);
    DifferenceFeeds(Bits(frame), Bits(received), i, j);
    TopReturnsExactly(j - i);
  }

  lemma DifferenceFeeds(x: seq<bool>, y: seq<bool>, i: nat, j: nat)
    requires DiffersAt(x, y, i, j)
    ensures Feed(Zeros(16), Xor(x, y)) == Zeros(16) <==> TopReturns(j - i)
  {
    TwoOnes(x, y, i, j);
    FeedTwoOnes(i, j - i - 1, |x| - j - 1);
    hide Feed, Xor, Zeros, DiffersAt;
    DifferenceClears(Steps(j - i, TOP), |x| - j);
  }

  lemma DifferenceClears(r: Register, n: nat)
    ensures Steps(n, Xor(r, TOP)) == Zeros(16) <==> r == TOP
  {
    XorIsZero(r, TOP);
    StepsOfZero(n);
    if Steps(n, Xor(r, TOP)) == Zeros(16) {
      StepsInjective(n, Xor(r, TOP), Zeros(16));
    }
  }

  lemma ResidueIsDifference(frame: seq<byte>, received: seq<byte>)
    requires 2 <= |frame| == |received| && TrailerMatches(frame)
    ensures TrailerMatches(received) <==> Feed(Zeros(16), Xor(Bits(frame), Bits(received))) == Zeros(16)
  {
    TrailerResidue(frame);
    TrailerResidue(received);
    UpdateIsFeed(INIT, frame);
    UpdateIsFeed(INIT, received);
    FeedXor(INIT, INIT, Bits(frame), Bits(received));
    assert Xor(INIT, INIT) == Zeros(16);
    assert Xor(Zeros(16), Crc16(received)) == Crc16(received);
  }

  /** In frames of at most 32767 bits no two flipped bits go unnoticed. */
  lemma TwoBitsRefused(frame: seq<byte>, received: seq<byte>, i: nat, j: nat)
    requires 2 <= |frame| == |received| && TrailerMatches(frame) && DiffersAt(Bits(frame), Bits(received), i, j)
    requires 8 * |frame| <= PERIOD
    ensures !TrailerMatches(received)
  {
    TwoBitErrors(frame, received, i, j);
  }

  // ---- and the first frame size at which two can ----

  function FlipFirst(b: byte): byte {
    (b + 128) % 256
  }

  function FlipLast(b: byte): byte {
    if b % 2 == 0 then b + 1 else b - 1
  }

  /** The frame with its very first and its very last bit flipped. */
  function FlipEnds(frame: seq<byte>): (r: seq<byte>)
    requires |frame| >= 2
    ensures |r| == |frame|
  {
    [FlipFirst(frame[0])] + frame[1..|frame| - 1] + [FlipLast(frame[|frame| - 1])]
  }

  lemma {:induction false} TopBits(n: nat, width: nat)
    requires n < Pow2(width)
    ensures BitsOf(n, width + 1) == [false] + BitsOf(n, width)
    ensures BitsOf(n + Pow2(width), width + 1) == [true] + BitsOf(n, width)
    decreases width
  {
    if width > 0 {
      TopBits(n / 2, width - 1);
      assert (n + Pow2(width)) / 2 == n / 2 + Pow2(width - 1);
    } else {
      assert BitsOf(0, 0) == [] && [] + [true] == [true] + [] && [] + [false] == [false] + [];
    }
  }

  lemma FlipTop(n: nat, width: nat)
    requires n < 2 * Pow2(width)
    ensures var f := if n < Pow2(width) then n + Pow2(width) else n - Pow2(width);
            BitsOf(f, width + 1) == [!BitsOf(n, width + 1)[0]] + BitsOf(n, width + 1)[1..]
  {
    TopBits(if n < Pow2(width) then n else n - Pow2(width), width);
  }

  lemma FlipBottom(n: nat, width: nat)
    ensures var f := if n % 2 == 0 then n + 1 else n - 1;
            BitsOf(f, width + 1) == BitsOf(n, width + 1)[..width] + [!BitsOf(n, width + 1)[width]]
  {
    var f := if n % 2 == 0 then n + 1 else n - 1;
    assert f / 2 == n / 2;
  }

  lemma FlippedBytes(b: byte)
    ensures ByteBits(FlipFirst(b)) == [!ByteBits(b)[0]] + ByteBits(b)[1..]
    ensures ByteBits(FlipLast(b)) == ByteBits(b)[..7] + [!ByteBits(b)[7]]
  {
    hide BitsOf;
    SevenBits();
    FlipTop(b, 7);
    FlipBottom(b, 7);
  }

  lemma SevenBits()
    ensures Pow2(7) == 128
  {
    assert Pow2(4) == 16;
  }

  lemma EndsDiffer(frame: seq<byte>)
    requires |frame| >= 2
    ensures DiffersAt(Bits(frame), Bits(FlipEnds(frame)), 0, 8 * |frame| - 1)
  {
    InParts(frame);
    hide *;
    PartsDiffer(frame, FlipEnds(frame), frame[0], frame[1..|frame| - 1], frame[|frame| - 1]);
  }

  lemma InParts(frame: seq<byte>)
    requires |frame| >= 2
    ensures var first, middle, last := frame[0], frame[1..|frame| - 1], frame[|frame| - 1];
            && frame == [first] + middle + [last]
            && FlipEnds(frame) == [FlipFirst(first)] + middle + [FlipLast(last)]
  {
    hide FlipFirst, FlipLast;
  }

  lemma PartsDiffer(frame: seq<byte>, flipped: seq<byte>, first: byte, middle: seq<byte>, last: byte)
    requires frame == [first] + middle + [last] && flipped == [FlipFirst(first)] + middle + [FlipLast(last)]
    ensures DiffersAt(Bits(frame), Bits(flipped), 0, 8 * |frame| - 1)
  {
    FlippedBits(first, middle, last, Bits(frame), Bits(flipped));
    hide *;
    EndsOnly(ByteBits(first), Bits(middle), ByteBits(last), Bits(frame), Bits(flipped));
  }

  lemma FlippedBits(first: byte, middle: seq<byte>, last: byte, x: seq<bool>, y: seq<bool>)
    requires x == Bits([first] + middle + [last]) && y == Bits([FlipFirst(first)] + middle + [FlipLast(last)])
    ensures x == ByteBits(first) + Bits(middle) + ByteBits(last)
    ensures y == ([!ByteBits(first)[0]] + ByteBits(first)[1..]) + Bits(middle)
                 + (ByteBits(last)[..7] + [!ByteBits(last)[7]])
  {
    hide FlipFirst, FlipLast, ByteBits;
    BitsOfThree(first, middle, last);
    BitsOfThree(FlipFirst(first), middle, FlipLast(last));
    FlippedBytes(first);
    FlippedBytes(last);
  }

  lemma EndsOnly(a: seq<bool>, m: seq<bool>, b: seq<bool>, x: seq<bool>, y: seq<bool>)
    requires |a| == |b| == 8 && x == a + m + b && y == ([!a[0]] + a[1..]) + m + (b[..7] + [!b[7]])
    ensures DiffersAt(x, y, 0, |x| - 1)
  {
    forall k | 1 <= k < |x| - 1 ensures x[k] == y[k] {
      if k < 8 {
        assert x[k] == a[k] && y[k] == a[1..][k - 1];
      } else if k >= |m| + 8 {
        assert x[k] == b[k - |m| - 8] && y[k] == b[..7][k - |m| - 8];
      }
    }
  }

  lemma BitsOfThree(first: byte, middle: seq<byte>, last: byte)
    ensures Bits([first] + middle + [last]) == ByteBits(first) + Bits(middle) + ByteBits(last)
  {
    BitsConcat([first], middle);
    BitsConcat([first] + middle, [last]);
    assert [first][1..] == [] && [last][1..] == [];
    assert Bits([first]) == ByteBits(first) && Bits([last]) == ByteBits(last);
  }

  /** At 4096 octets, 32768 bits, flipping the first and the last bit of any frame goes unnoticed. */
  lemma FlippedEndsMatch(frame: seq<byte>)
    requires |frame| == 4096 && TrailerMatches(frame)
    ensures FlipEnds(frame) != frame && TrailerMatches(FlipEnds(frame))
  {
    EndsDiffer(frame);
    hide TrailerMatches, Bits;
    TwoBitErrors(frame, FlipEnds(frame), 0, 32767);
    assert FlipEnds(frame)[0] == FlipFirst(frame[0]);
  }
}
