/** The CRC-16 of the CCSDS frame error control field: the register loop that both Python tools
  * run, its meaning as a polynomial remainder, and the errors a matching trailer rules out.
  * The 16-bit register is held as its bits, most significant first. */
module Crc {
  import opened Octets

  type Register = r: seq<bool> | |r| == 16 witness Zeros(16)

  function Zeros(n: nat): (r: seq<bool>)
    ensures |r| == n
  {
    seq(n, _ => false)
  }

  function Ones(n: nat): (r: seq<bool>)
    ensures |r| == n
  {
    seq(n, _ => true)
  }

  function Xor(a: seq<bool>, b: seq<bool>): (c: seq<bool>)
    requires |a| == |b|
    ensures |c| == |a|
    ensures forall i :: 0 <= i < |a| ==> c[i] == (a[i] != b[i])
  {
    seq(|a|, i requires 0 <= i < |a| => a[i] != b[i])
  }

  /** CRC16_CCITT_INIT, 0xFFFF. */
  const INIT: Register := Ones(16)

  /** CRC16_CCITT_POLY, 0x1021: x^12 + x^5 + 1, the generator without its leading x^16. */
  const POLY: Register := [false, false, false, true, false, false, false, false,
                           false, false, true, false, false, false, false, true]

  /** One turn of the inner loop: shift left, and reduce when a one falls out. */
  function Step(r: Register): Register {
    var s := r[1..] + [false];
    if r[0] then Xor(s, POLY) else s
  }

  function Steps(n: nat, r: Register): Register {
    if n == 0 then r else Steps(n - 1, Step(r))
  }

  /** The register with an octet exclusive-ored into its upper half. */
  function Load(r: Register, b: byte): Register {
    Xor(r, ByteBits(b) + Zeros(8))
  }

  function Update(r: Register, data: seq<byte>): Register
    decreases data
  {
    if data == [] then r else Update(Steps(8, Load(r, data[0])), data[1..])
  }

  function Crc16(data: seq<byte>): Register {
    Update(INIT, data)
  }

  /** The register loop of both tools. */
  method ComputeCrc(data: seq<byte>) returns (value: Register)
    ensures value == Crc16(data)
  {
    value := INIT;
    for i := 0 to |data|
      invariant value == Update(INIT, data[..i])
    {
      UpdateSnoc(INIT, data, i);
      value := Load(value, data[i]);
      ghost var loaded := value;
      for k := 0 to 8
        invariant value == Steps(k, loaded)
      {
        StepsLast(k, loaded);
        if value[0] {
          value := Xor(value[1..] + [false], POLY);
        } else {
          value := value[1..] + [false];
        }
      }
    }
    assert data[..|data|] == data;
  }

  lemma {:induction false} StepsLast(n: nat, r: Register)
    ensures Steps(n + 1, r) == Step(Steps(n, r))
  {
    if n > 0 {
      StepsLast(n - 1, Step(r));
    }
  }

  lemma {:induction false} UpdateConcat(r: Register, a: seq<byte>, b: seq<byte>)
    ensures Update(r, a + b) == Update(Update(r, a), b)
    decreases a
  {
    if a == [] {
      assert a + b == b;
    } else {
      assert (a + b)[1..] == a[1..] + b;
      UpdateConcat(Steps(8, Load(r, a[0])), a[1..], b);
    }
  }

  lemma UpdateSnoc(r: Register, data: seq<byte>, i: nat)
    requires i < |data|
    ensures Update(r, data[..i + 1]) == Steps(8, Load(Update(r, data[..i]), data[i]))
  {
    assert data[..i + 1] == data[..i] + [data[i]];
    UpdateConcat(r, data[..i], [data[i]]);
    assert [data[i]][1..] == [];
  }

  // ---- the register, one message bit at a time ----

  function Feed(r: Register, bits: seq<bool>): Register
    decreases bits
  {
    if bits == [] then r else Feed(Step([r[0] != bits[0]] + r[1..]), bits[1..])
  }

  lemma StepXor(a: Register, b: Register)
    ensures Step(Xor(a, b)) == Xor(Step(a), Step(b))
  {
  }

  /** Shifting loses nothing: the coefficient of x^0 in the generator is one. */
  lemma StepInjective(a: Register, b: Register)
    requires Step(a) == Step(b)
    ensures a == b
  {
    assert Step(a)[15] == a[0] && Step(b)[15] == b[0];
    forall i | 1 <= i < 16 ensures a[i] == b[i] {
      assert Step(a)[i - 1] == (a[i] != (a[0] && POLY[i - 1]));
      assert Step(b)[i - 1] == (b[i] != (b[0] && POLY[i - 1]));
    }
  }

  lemma {:induction false} StepsInjective(n: nat, a: Register, b: Register)
    requires Steps(n, a) == Steps(n, b)
    ensures a == b
  {
    if n > 0 {
      StepsInjective(n - 1, Step(a), Step(b));
      StepInjective(a, b);
    }
  }

  lemma {:induction false} FeedInjective(a: Register, b: Register, bits: seq<bool>)
    requires Feed(a, bits) == Feed(b, bits)
    ensures a == b
    decreases bits
  {
    if bits != [] {
      var c, d := [a[0] != bits[0]] + a[1..], [b[0] != bits[0]] + b[1..];
      FeedInjective(Step(c), Step(d), bits[1..]);
      StepInjective(c, d);
      assert c[0] == d[0] && forall i :: 1 <= i < 16 ==> c[i] == d[i];
    }
  }

  /** Up to sixteen bits may be fed at once. */
  lemma {:induction false} FeedAtOnce(r: Register, bits: seq<bool>)
    requires |bits| <= 16
    ensures Feed(r, bits) == Steps(|bits|, Xor(r, bits + Zeros(16 - |bits|)))
    decreases bits
  {
    if bits == [] {
      assert Xor(r, bits + Zeros(16)) == r;
    } else {
      var fed := [r[0] != bits[0]] + r[1..];
      var rest := bits[1..];
      FeedAtOnce(Step(fed), rest);
      assert Xor(Step(fed), rest + Zeros(16 - |rest|)) == Step(Xor(r, bits + Zeros(16 - |bits|)));
    }
  }

  lemma {:induction false} FeedConcat(r: Register, a: seq<bool>, b: seq<bool>)
    ensures Feed(r, a + b) == Feed(Feed(r, a), b)
    decreases a
  {
    if a == [] {
      assert a + b == b;
    } else {
      assert (a + b)[1..] == a[1..] + b;
      FeedConcat(Step([r[0] != a[0]] + r[1..]), a[1..], b);
    }
  }

  lemma {:induction false} UpdateIsFeed(r: Register, data: seq<byte>)
    ensures Update(r, data) == Feed(r, Bits(data))
    decreases data
  {
    if data != [] {
      FeedAtOnce(r, ByteBits(data[0]));
      FeedConcat(r, ByteBits(data[0]), Bits(data[1..]));
      UpdateIsFeed(Steps(8, Load(r, data[0])), data[1..]);
    }
  }

  // ---- the CRC as a polynomial remainder ----

  /** Schoolbook division of a coefficient list, highest power first, by x^16 + x^12 + x^5 + 1. */
  function Remainder(dividend: seq<bool>): Register
    requires |dividend| >= 16
    decreases |dividend|
  {
    var n := |dividend|;
    if n == 16 then dividend
    else if dividend[0] then Remainder(Xor(dividend, [true] + POLY + Zeros(n - 17))[1..])
    else Remainder(dividend[1..])
  }

  /** What is left to divide once the register r has met the bits. */
  function Dividend(r: Register, bits: seq<bool>): (d: seq<bool>)
    ensures |d| == |bits| + 16
  {
    Xor(bits + Zeros(16), r + Zeros(|bits|))
  }

  lemma DivisionStep(r: Register, bits: seq<bool>)
    requires bits != []
    ensures Remainder(Dividend(r, bits)) == Remainder(Dividend(Step([r[0] != bits[0]] + r[1..]), bits[1..]))
  {
    var dividend := Dividend(r, bits);
    var rest := Dividend(Step([r[0] != bits[0]] + r[1..]), bits[1..]);
    if dividend[0] {
      assert Xor(dividend, [true] + POLY + Zeros(|bits| - 1))[1..] == rest;
    } else {
      assert dividend[1..] == rest;
    }
  }

  lemma {:induction false} FeedIsRemainder(r: Register, bits: seq<bool>)
    ensures Feed(r, bits) == Remainder(Dividend(r, bits))
    decreases bits
  {
    if bits == [] {
      assert Dividend(r, bits) == r;
    } else {
      DivisionStep(r, bits);
      FeedIsRemainder(Step([r[0] != bits[0]] + r[1..]), bits[1..]);
    }
  }

  /** The CRC is the remainder of the message, its first sixteen bits complemented and sixteen
    * zero bits appended, divided by the CCITT generator polynomial. */
  lemma CrcIsRemainder(data: seq<byte>)
    ensures Crc16(data) == Remainder(Xor(Bits(data) + Zeros(16), Ones(16) + Zeros(8 * |data|)))
  {
    UpdateIsFeed(INIT, data);
    FeedIsRemainder(INIT, Bits(data));
    assert Dividend(INIT, Bits(data)) == Xor(Bits(data) + Zeros(16), Ones(16) + Zeros(8 * |data|));
  }

  // ---- what a matching trailer means ----

  /** The comparison both tools make: the transmitted trailer against the CRC of what precedes. */
  predicate TrailerMatches(frame: seq<byte>)
    requires |frame| >= 2
  {
    U16(frame, |frame| - 2) == Value(Crc16(frame[..|frame| - 2]))
  }

  lemma XorIsZero(a: Register, b: Register)
    ensures Xor(a, b) == Zeros(16) <==> a == b
  {
    if Xor(a, b) == Zeros(16) {
      forall i | 0 <= i < 16 ensures a[i] == b[i] {
        assert Xor(a, b)[i] == Zeros(16)[i];
      }
    }
    if a == b {
      assert Xor(a, b) == Zeros(16);
    }
  }

  /** Sixteen bits bring the register to zero exactly when they repeat it. */
  lemma WordClears(r: Register, bits: seq<bool>)
    requires |bits| == 16
    ensures Feed(r, bits) == Zeros(16) <==> bits == r
  {
    FeedAtOnce(r, bits);
    assert bits + Zeros(0) == bits;
    StepsOfZero(16);
    XorIsZero(r, bits);
    if Feed(r, bits) == Zeros(16) {
      StepsInjective(16, Xor(r, bits), Zeros(16));
    }
  }

  /** The trailer matches exactly when the CRC over the whole frame, trailer included, is zero. */
  lemma TrailerResidue(frame: seq<byte>)
    requires |frame| >= 2
    ensures TrailerMatches(frame) <==> Crc16(frame) == Zeros(16)
  {
    var n := |frame| - 2;
    var body, trailer := frame[..n], [frame[n], frame[n + 1]];
    assert frame == body + trailer;
    UpdateConcat(INIT, body, trailer);
    UpdateIsFeed(Crc16(body), trailer);
    WordClears(Crc16(body), Bits(trailer));
    ValueWord(frame[n], frame[n + 1]);
    if TrailerMatches(frame) {
      ValueInjective(Crc16(body), Bits(trailer));
    }
  }

  lemma {:induction false} StepsOfZero(n: nat)
    ensures Steps(n, Zeros(16)) == Zeros(16)
  {
    if n > 0 {
      assert Step(Zeros(16)) == Zeros(16);
      StepsOfZero(n - 1);
    }
  }

  // ---- every register is reached ----

  /** The step taken back: the last bit tells whether the generator was added. */
  function Unstep(r: Register): Register {
    if r[15] then [true] + Xor(r, POLY)[..15] else [false] + r[..15]
  }

  lemma UnstepStep(r: Register)
    ensures Step(Unstep(r)) == r
  {
    var u := Unstep(r);
    if r[15] {
      var s := u[1..] + [false];
      assert s == Xor(r, POLY);
      assert Xor(s, POLY) == r;
    } else {
      assert u[1..] + [false] == r;
    }
  }

  function Unsteps(n: nat, r: Register): Register {
    if n == 0 then r else Unstep(Unsteps(n - 1, r))
  }

  lemma {:induction false} UnstepsSteps(n: nat, r: Register)
    ensures Steps(n, Unsteps(n, r)) == r
  {
    if n > 0 {
      UnstepStep(Unsteps(n - 1, r));
      UnstepsSteps(n - 1, r);
    }
  }

  /** Two octets take any register to any other, and in one way only: as a map from the sixteen message bits the
    * two-octet step is a bijection. */
  lemma TwoOctetsBijective(from: Register, to: Register) returns (word: Register)
    ensures Feed(from, word) == to
    ensures forall w: Register :: Feed(from, w) == to ==> w == word
    ensures forall r: Register :: Feed(r, word) == to ==> r == from
  {
    word := Xor(from, Unsteps(16, to));
    FeedAtOnce(from, word);
    assert word + Zeros(0) == word;
    assert Xor(from, word) == Unsteps(16, to);
    UnstepsSteps(16, to);
    forall w: Register | Feed(from, w) == to ensures w == word { ShortFeedInjective(from, w, word); }
    forall r: Register | Feed(r, word) == to ensures r == from { FeedInjective(r, from, word); }
  }

  /** And as a map on the register: whatever the two octets, any register is reached from exactly one. */
  lemma RegisterReached(word: Register, to: Register) returns (from: Register)
    ensures Feed(from, word) == to
    ensures forall r: Register :: Feed(r, word) == to ==> r == from
  {
    from := Xor(word, Unsteps(16, to));
    FeedAtOnce(from, word);
    assert word + Zeros(0) == word;
    assert Xor(from, word) == Unsteps(16, to);
    UnstepsSteps(16, to);
    forall r: Register | Feed(r, word) == to ensures r == from { FeedInjective(r, from, word); }
  }

  /** Two messages that differ, and only inside one window of sixteen consecutive bits. */
  ghost predicate BurstDiffers(a: seq<byte>, b: seq<byte>, start: nat) {
    && |a| == |b| && a != b
    && forall i :: 0 <= i < 8 * |a| && !(start <= i < start + 16) ==> Bits(a)[i] == Bits(b)[i]
  }

  lemma ShortFeedInjective(r: Register, x: seq<bool>, y: seq<bool>)
    requires |x| == |y| <= 16 && Feed(r, x) == Feed(r, y)
    ensures x == y
  {
    FeedAtOnce(r, x);
    FeedAtOnce(r, y);
    var pad := Zeros(16 - |x|);
    StepsInjective(|x|, Xor(r, x + pad), Xor(r, y + pad));
    forall i | 0 <= i < |x| ensures x[i] == y[i] {
      assert Xor(r, x + pad)[i] == Xor(r, y + pad)[i];
    }
  }

  /** The same on bit strings: equal outside [lo, hi) and equal registers force equality. */
  lemma WindowInjective(x: seq<bool>, y: seq<bool>, lo: nat, hi: nat)
    requires |x| == |y| && lo <= hi <= |x| && hi <= lo + 16
    requires x[..lo] == y[..lo] && x[hi..] == y[hi..]
    requires Feed(INIT, x) == Feed(INIT, y)
    ensures x == y
  {
    FeedThreeParts(x, lo, hi);
    FeedThreeParts(y, lo, hi);
    MiddleInjective(Feed(INIT, x[..lo]), x[lo..hi], y[lo..hi], x[hi..]);
    ThreePartsEqual(x, y, lo, hi);
  }

  lemma ThreePartsEqual(x: seq<bool>, y: seq<bool>, lo: nat, hi: nat)
    requires |x| == |y| && lo <= hi <= |x|
    requires x[..lo] == y[..lo] && x[lo..hi] == y[lo..hi] && x[hi..] == y[hi..]
    ensures x == y
  {
    assert x == x[..lo] + x[lo..hi] + x[hi..] && y == y[..lo] + y[lo..hi] + y[hi..];
  }

  lemma MiddleInjective(r: Register, x: seq<bool>, y: seq<bool>, after: seq<bool>)
    requires |x| == |y| <= 16 && Feed(Feed(r, x), after) == Feed(Feed(r, y), after)
    ensures x == y
  {
    FeedInjective(Feed(r, x), Feed(r, y), after);
    ShortFeedInjective(r, x, y);
  }

  /** No burst of up to sixteen bits goes unnoticed, wherever it falls. */
  lemma BurstDetected(a: seq<byte>, b: seq<byte>, start: nat)
    requires BurstDiffers(a, b, start)
    ensures Crc16(a) != Crc16(b)
  {
    var x, y := Bits(a), Bits(b);
    var lo := if start < |x| then start else |x|;
    var hi := if start + 16 < |x| then start + 16 else |x|;
    assert x[..lo] == y[..lo] && x[hi..] == y[hi..];
    UpdateIsFeed(INIT, a);
    UpdateIsFeed(INIT, b);
    if Crc16(a) == Crc16(b) {
      WindowInjective(x, y, lo, hi);
      BitsInjective(a, b);
    }
  }

  lemma FeedThreeParts(bits: seq<bool>, lo: nat, hi: nat)
    requires lo <= hi <= |bits|
    ensures Feed(INIT, bits) == Feed(Feed(Feed(INIT, bits[..lo]), bits[lo..hi]), bits[hi..])
  {
    assert bits == bits[..lo] + bits[lo..] && bits[lo..] == bits[lo..hi] + bits[hi..];
    FeedConcat(INIT, bits[..lo], bits[lo..]);
    FeedConcat(Feed(INIT, bits[..lo]), bits[lo..hi], bits[hi..]);
  }

  /** A frame corrupted only inside sixteen consecutive bits, its trailer included, is refused. */
  lemma CorruptedFrameRefused(frame: seq<byte>, received: seq<byte>, start: nat)
    requires |frame| >= 2 && TrailerMatches(frame)
    requires BurstDiffers(frame, received, start)
    ensures !TrailerMatches(received)
  {
    TrailerResidue(frame);
    TrailerResidue(received);
    BurstDetected(frame, received, start);
  }

  // ---- parity: the generator has an even number of terms ----

  /** Whether a bit string holds an odd number of ones. */
  function Odd(bits: seq<bool>): bool {
    if bits == [] then false else bits[0] != Odd(bits[1..])
  }

  lemma {:induction false} OddConcat(a: seq<bool>, b: seq<bool>)
    ensures Odd(a + b) == (Odd(a) != Odd(b))
  {
    if a == [] {
      assert a + b == b;
    } else {
      assert (a + b)[1..] == a[1..] + b;
      OddConcat(a[1..], b);
    }
  }

  lemma {:induction false} OddXor(a: seq<bool>, b: seq<bool>)
    requires |a| == |b|
    ensures Odd(Xor(a, b)) == (Odd(a) != Odd(b))
  {
    if a != [] {
      assert Xor(a, b)[1..] == Xor(a[1..], b[1..]);
      OddXor(a[1..], b[1..]);
    }
  }

  lemma {:induction false} OddZeros(n: nat)
    ensures !Odd(Zeros(n))
    ensures Odd(Ones(n)) == (n % 2 == 1)
  {
    if n > 0 {
      assert Zeros(n)[1..] == Zeros(n - 1) && Ones(n)[1..] == Ones(n - 1);
      OddZeros(n - 1);
    }
  }

  lemma StepKeepsParity(r: Register)
    ensures Odd(Step(r)) == Odd(r)
  {
    OddConcat(r[1..], [false]);
    assert [false][1..] == [];
    var s := r[1..] + [false];
    assert Odd(POLY) by {
      assert POLY == Zeros(3) + [true] + Zeros(6) + [true] + Zeros(4) + [true];
      OddZeros(3);
      OddZeros(6);
      OddZeros(4);
      assert [true][1..] == [];
      OddConcat(Zeros(3), [true]);
      OddConcat(Zeros(3) + [true], Zeros(6));
      OddConcat(Zeros(3) + [true] + Zeros(6), [true]);
      OddConcat(Zeros(3) + [true] + Zeros(6) + [true], Zeros(4));
      OddConcat(Zeros(3) + [true] + Zeros(6) + [true] + Zeros(4), [true]);
    }
    OddXor(s, POLY);
  }

  lemma {:induction false} FeedParity(r: Register, bits: seq<bool>)
    ensures Odd(Feed(r, bits)) == (Odd(r) != Odd(bits))
    decreases bits
  {
    if bits != [] {
      var fed := [r[0] != bits[0]] + r[1..];
      assert fed[1..] == r[1..];
      StepKeepsParity(fed);
      FeedParity(Step(fed), bits[1..]);
    }
  }

  /** A frame whose trailer matches holds an even number of ones, so a corruption that flips an odd
    * number of bits, anywhere in the frame, is refused. */
  lemma OddErrorsRefused(frame: seq<byte>, received: seq<byte>)
    requires 2 <= |frame| == |received| && TrailerMatches(frame)
    ensures !Odd(Bits(frame))
    ensures Odd(Xor(Bits(frame), Bits(received))) ==> !TrailerMatches(received)
  {
    EvenWhenMatching(frame);
    OddXor(Bits(frame), Bits(received));
    if TrailerMatches(received) {
      EvenWhenMatching(received);
    }
  }

  lemma EvenWhenMatching(frame: seq<byte>)
    requires |frame| >= 2 && TrailerMatches(frame)
    ensures !Odd(Bits(frame))
  {
    TrailerResidue(frame);
    UpdateIsFeed(INIT, frame);
    FeedParity(INIT, Bits(frame));
    OddZeros(16);
  }
}
