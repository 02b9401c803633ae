/** The checksum by which library functions are recognised in a program, and the matching of patterns
    with it. Registers are 32-bit words, as in the source; only their low 16 bits are ever set. */
module StaticHleCrc {
  const POLY: bv32 := 0x8408

  // ---- words

  function Xor(a: bv32, b: bv32): bv32 {
    a ^ b
  }

  function Half(x: bv32): bv32 {
    x >> 1
  }

  predicate Odd(x: bv32) {
    x & 1 == 1
  }

  function Rest(x: bv32): bv32 {
    x >> 8
  }

  function LowByte(x: bv32): bv32 {
    x & 0xFF
  }

  function HighPart(x: bv32): bv32 {
    x & 0xFFFF_FF00
  }

  function Word(b: bv8): bv32 {
    b as bv32
  }

  lemma XorAssociates(a: bv32, b: bv32, c: bv32)
    ensures Xor(Xor(a, b), c) == Xor(a, Xor(b, c))
    ensures Xor(a, b) == Xor(b, a)
  {
  }

  lemma XorCancels(a: bv32)
    ensures Xor(a, a) == 0 && Xor(a, 0) == a
  {
  }

  lemma XorPairs(a: bv32, b: bv32, c: bv32, d: bv32)
    ensures Xor(Xor(a, b), Xor(c, d)) == Xor(Xor(a, c), Xor(b, d))
  {
    hide Xor;
    XorAssociates(a, b, Xor(c, d));
    XorAssociates(b, c, d);
    XorAssociates(c, b, d);
    XorAssociates(a, c, Xor(b, d));
  }

  lemma HalfXor(x: bv32, y: bv32)
    ensures Half(Xor(x, y)) == Xor(Half(x), Half(y))
  {
  }

  lemma OddXor(x: bv32, y: bv32)
    ensures Odd(Xor(x, y)) <==> Odd(x) != Odd(y)
  {
  }

  // ---- one bit

  /** One step of the reflected register. */
  function Shift(x: bv32): bv32 {
    if Odd(x) then Xor(Half(x), POLY) else Half(x)
  }

  lemma ShiftBound(x: bv32)
    requires Is16(x)
    ensures Is16(Shift(x))
  {
  }

  lemma ShiftXor(x: bv32, y: bv32)
    ensures Shift(Xor(x, y)) == Xor(Shift(x), Shift(y))
  {
    hide Xor, Half, Odd;
    HalfXor(x, y);
    OddXor(x, y);
    var a, b := Half(x), Half(y);
    XorPairs(a, POLY, b, POLY);
    XorCancels(POLY);
    XorCancels(Xor(a, b));
    XorAssociates(a, POLY, b);
    XorAssociates(a, b, POLY);
    XorAssociates(b, POLY, a);
  }

  lemma ShiftInjective(x: bv32, y: bv32)
    requires Is16(x) && Is16(y) && Shift(x) == Shift(y)
    ensures x == y
  {
  }

  function Bit(b: bool): bv32 {
    if b then 1 else 0
  }

  /** The register after a message bit. */
  function BitStep(c: bv32, bit: bool): bv32 {
    Shift(Xor(c, Bit(bit)))
  }

  /** Only the low 16 bits are set. */
  predicate Is16(x: bv32) {
    x <= 0xFFFF
  }

  lemma XorBit(c: bv32, b: bool)
    requires Is16(c)
    ensures Is16(Xor(c, Bit(b))) && Xor(Xor(c, Bit(b)), Bit(b)) == c
  {
  }

  lemma BitStepBound(c: bv32, bit: bool)
    requires Is16(c)
    ensures Is16(BitStep(c, bit))
  {
    XorBit(c, bit);
    hide Xor;
    ShiftBound(Xor(c, Bit(bit)));
  }

  lemma BitStepInjective(c: bv32, d: bv32, bit: bool)
    requires Is16(c) && Is16(d) && BitStep(c, bit) == BitStep(d, bit)
    ensures c == d
  {
    hide Xor, Shift, Is16;
    XorBit(c, bit);
    XorBit(d, bit);
    ShiftInjective(Xor(c, Bit(bit)), Xor(d, Bit(bit)));
  }

  // ---- bit strings

  function CrcBits(c: bv32, bits: seq<bool>): bv32
    decreases |bits|
  {
    if bits == [] then c else CrcBits(BitStep(c, bits[0]), bits[1..])
  }

  lemma {:induction false} CrcBitsBound(c: bv32, bits: seq<bool>)
    requires Is16(c)
    ensures Is16(CrcBits(c, bits))
    decreases |bits|
  {
    hide BitStep, Is16;
    if bits != [] {
      BitStepBound(c, bits[0]);
      CrcBitsBound(BitStep(c, bits[0]), bits[1..]);
    }
  }

  lemma {:induction false} CrcBitsInjective(c: bv32, d: bv32, bits: seq<bool>)
    requires Is16(c) && Is16(d) && CrcBits(c, bits) == CrcBits(d, bits)
    ensures c == d
    decreases |bits|
  {
    hide BitStep, Is16;
    if bits != [] {
      BitStepBound(c, bits[0]);
      BitStepBound(d, bits[0]);
      CrcBitsInjective(BitStep(c, bits[0]), BitStep(d, bits[0]), bits[1..]);
      BitStepInjective(c, d, bits[0]);
    }
  }

  lemma {:induction false} CrcBitsJoin(c: bv32, a: seq<bool>, b: seq<bool>)
    ensures CrcBits(c, a + b) == CrcBits(CrcBits(c, a), b)
    decreases |a|
  {
    hide BitStep;
    if a == [] {
      assert a + b == b;
    } else {
      CrcBitsJoin(BitStep(c, a[0]), a[1..], b);
      assert (a + b)[1..] == a[1..] + b;
    }
  }

  // ---- bursts of errors

  /** What the difference of two registers cannot fall below, `j` bits after the first difference. */
  function Floor(j: nat): bv32
    requires j <= 15
  {
    if j == 0 then 0x8000 else Half(Floor(j - 1))
  }

  predicate AtLeast(x: bv32, floor: bv32) {
    floor <= x
  }

  lemma FloorValues()
    ensures Floor(0) == 0x8000 && Floor(1) == 0x4000 && Floor(2) == 0x2000 && Floor(3) == 0x1000
    ensures Floor(4) == 0x800 && Floor(5) == 0x400 && Floor(6) == 0x200 && Floor(7) == 0x100
    ensures Floor(8) == 0x80 && Floor(9) == 0x40 && Floor(10) == 0x20 && Floor(11) == 0x10
    ensures Floor(12) == 8 && Floor(13) == 4 && Floor(14) == 2 && Floor(15) == 1
  {
    assert Floor(1) == 0x4000 && Floor(2) == 0x2000 && Floor(3) == 0x1000;
    assert Floor(4) == 0x800 && Floor(5) == 0x400 && Floor(6) == 0x200 && Floor(7) == 0x100;
    assert Floor(8) == 0x80 && Floor(9) == 0x40 && Floor(10) == 0x20 && Floor(11) == 0x10;
    assert Floor(12) == 8 && Floor(13) == 4 && Floor(14) == 2 && Floor(15) == 1;
  }

  lemma FloorFacts(j: nat)
    requires j < 15
    ensures Floor(j) <= 0x8000 && Floor(j + 1) == Half(Floor(j))
  {
    FloorValues();
  }

  lemma HalfMonotone(x: bv32, floor: bv32)
    requires AtLeast(x, floor)
    ensures AtLeast(Half(x), Half(floor))
  {
  }

  lemma PolyOnTop(x: bv32, floor: bv32)
    requires Is16(x) && floor <= 0x8000
    ensures AtLeast(Xor(Half(x), POLY), Half(floor))
  {
  }

  lemma LowBitOnly(a: bool, b: bool)
    ensures Half(Xor(Bit(a), Bit(b))) == 0
  {
  }

  /** A step at most halves the difference. */
  lemma ShiftFalls(x: bv32, floor: bv32, a: bool, b: bool)
    requires AtLeast(x, floor) && Is16(x) && floor <= 0x8000
    ensures AtLeast(Shift(Xor(x, Xor(Bit(a), Bit(b)))), Half(floor))
  {
    hide Xor, Half, Odd, Bit, AtLeast, Is16;
    var e := Xor(Bit(a), Bit(b));
    LowBitOnly(a, b);
    HalfXor(x, e);
    XorCancels(Half(x));
    HalfMonotone(x, floor);
    PolyOnTop(x, floor);
  }

  /** Two registers step together: so does their difference. */
  lemma Difference(c: bv32, d: bv32, a: bool, b: bool)
    ensures Xor(BitStep(c, a), BitStep(d, b)) == Shift(Xor(Xor(c, d), Xor(Bit(a), Bit(b))))
  {
    hide Shift, Bit, Xor;
    ShiftXor(Xor(c, Bit(a)), Xor(d, Bit(b)));
    XorPairs(c, Bit(a), d, Bit(b));
  }

  /** The registers differ by at least the floor. */
  predicate Differ(c: bv32, d: bv32, j: nat)
    requires j <= 15
  {
    AtLeast(Xor(c, d), Floor(j))
  }

  lemma DifferIsUnequal(c: bv32, d: bv32, j: nat)
    requires j <= 15 && Differ(c, d, j)
    ensures c != d
  {
    FloorValues();
    hide Floor;
  }

  lemma XorBound(c: bv32, d: bv32)
    requires Is16(c) && Is16(d)
    ensures Is16(Xor(c, d))
  {
  }

  lemma DifferFurther(c: bv32, d: bv32, a: bool, b: bool, j: nat)
    requires j < 15 && Is16(c) && Is16(d) && Differ(c, d, j)
    ensures Differ(BitStep(c, a), BitStep(d, b), j + 1)
  {
    hide Floor, BitStep, Shift, Bit, Xor, Half, AtLeast, Is16;
    FloorFacts(j);
    Difference(c, d, a, b);
    XorBound(c, d);
    ShiftFalls(Xor(c, d), Floor(j), a, b);
  }

  lemma {:induction false} StayApart(c: bv32, d: bv32, a: seq<bool>, b: seq<bool>, j: nat)
    requires Is16(c) && Is16(d) && |a| == |b| <= 15 - j && j <= 15 && Differ(c, d, j)
    ensures CrcBits(c, a) != CrcBits(d, b)
    decreases |a|
  {
    hide Differ, BitStep, Is16;
    if a == [] {
      DifferIsUnequal(c, d, j);
    } else {
      BitStepBound(c, a[0]);
      BitStepBound(d, b[0]);
      DifferFurther(c, d, a[0], b[0], j);
      StayApart(BitStep(c, a[0]), BitStep(d, b[0]), a[1..], b[1..], j + 1);
    }
  }

  lemma FirstDifference(c: bv32, a: bool, b: bool)
    requires a != b
    ensures Differ(BitStep(c, a), BitStep(c, b), 0)
  {
    Difference(c, c, a, b);
    hide BitStep;
    assert Xor(c, c) == 0 && Xor(Bit(a), Bit(b)) == 1 && Xor(0, 1) == 1;
    assert Shift(1) == 0x8408;
  }

  lemma {:induction false} WindowTellsApart(c: bv32, a: seq<bool>, b: seq<bool>)
    requires Is16(c) && |a| == |b| <= 16 && a != b
    ensures CrcBits(c, a) != CrcBits(c, b)
    decreases |a|
  {
    hide BitStep, Is16, Differ;
    BitStepBound(c, a[0]);
    BitStepBound(c, b[0]);
    if a[0] == b[0] {
      assert a == [a[0]] + a[1..] && b == [b[0]] + b[1..];
      WindowTellsApart(BitStep(c, a[0]), a[1..], b[1..]);
    } else {
      FirstDifference(c, a[0], b[0]);
      StayApart(BitStep(c, a[0]), BitStep(c, b[0]), a[1..], b[1..], 0);
    }
  }

  /** Two bit strings that differ, but only within 16 consecutive bits, leave different registers. */
  lemma BurstTellsApart(c: bv32, head: seq<bool>, a: seq<bool>, b: seq<bool>, tail: seq<bool>)
    requires Is16(c) && |a| == |b| <= 16 && a != b
    ensures CrcBits(c, head + a + tail) != CrcBits(c, head + b + tail)
  {
    hide CrcBits, Is16;
    CrcBitsJoin(c, head + a, tail);
    CrcBitsJoin(c, head, a);
    CrcBitsJoin(c, head + b, tail);
    CrcBitsJoin(c, head, b);
    var m := CrcBits(c, head);
    CrcBitsBound(c, head);
    WindowTellsApart(m, a, b);
    CrcBitsBound(m, a);
    CrcBitsBound(m, b);
    if CrcBits(CrcBits(m, a), tail) == CrcBits(CrcBits(m, b), tail) {
      CrcBitsInjective(CrcBits(m, a), CrcBits(m, b), tail);
    }
  }

  // ---- messages

  /** The lowest `n` bits of a word, lowest first. */
  function BitsFrom(d: bv32, n: nat): (r: seq<bool>)
    ensures |r| == n
  {
    if n == 0 then [] else [Odd(d)] + BitsFrom(Half(d), n - 1)
  }

  /** What is left of a word when its lowest `n` bits are gone. */
  function Down(d: bv32, n: nat): bv32 {
    if n == 0 then d else Down(Half(d), n - 1)
  }

  /** The bits of a message, each byte lowest bit first. */
  function MessageBits(data: seq<bv8>): (r: seq<bool>)
    ensures |r| == 8 * |data|
  {
    if data == [] then []
    else MessageBits(data[..|data| - 1]) + BitsFrom(Word(data[|data| - 1]), 8)
  }

  lemma {:induction false} MessageBitsJoin(a: seq<bv8>, b: seq<bv8>)
    ensures MessageBits(a + b) == MessageBits(a) + MessageBits(b)
    decreases |b|
  {
    hide BitsFrom;
    if b == [] {
      assert a + b == a;
    } else {
      var n := |b| - 1;
      MessageBitsJoin(a, b[..n]);
      assert (a + b)[..|a + b| - 1] == a + b[..n];
    }
  }

  lemma HalfAndOddDetermine(d: bv32, e: bv32)
    requires Half(d) == Half(e) && (Odd(d) <==> Odd(e))
    ensures d == e
  {
  }

  lemma {:induction false} BitsDetermine(d: bv32, e: bv32, n: nat)
    requires BitsFrom(d, n) == BitsFrom(e, n) && Down(d, n) == Down(e, n)
    ensures d == e
    decreases n
  {
    hide Half, Odd;
    if n > 0 {
      assert BitsFrom(d, n)[1..] == BitsFrom(Half(d), n - 1) && BitsFrom(e, n)[1..] == BitsFrom(Half(e), n - 1);
      assert BitsFrom(d, n)[0] == BitsFrom(e, n)[0];
      BitsDetermine(Half(d), Half(e), n - 1);
      HalfAndOddDetermine(d, e);
    }
  }

  lemma HalvedEightTimes(d: bv32)
    ensures Half(Half(Half(Half(Half(Half(Half(Half(d)))))))) == Rest(d)
  {
  }

  lemma DownOnce(d: bv32, n: nat)
    requires n > 0
    ensures Down(d, n) == Down(Half(d), n - 1)
  {
  }

  lemma DownEight(d: bv32)
    ensures Down(d, 8) == Rest(d)
  {
    HalvedEightTimes(d);
    assert forall x :: Down(x, 0) == x;
    hide Half, Rest, Down;
    var d2 := Half(Half(d));
    var d4 := Half(Half(d2));
    var d6 := Half(Half(d4));
    DownOnce(d, 8);
    DownOnce(Half(d), 7);
    DownOnce(d2, 6);
    DownOnce(Half(d2), 5);
    DownOnce(d4, 4);
    DownOnce(Half(d4), 3);
    DownOnce(d6, 2);
    DownOnce(Half(d6), 1);
  }

  lemma BytesDiffer(x: bv8, y: bv8)
    requires x != y
    ensures BitsFrom(Word(x), 8) != BitsFrom(Word(y), 8)
  {
    var d, e := Word(x), Word(y);
    DownEight(d);
    DownEight(e);
    hide Down, BitsFrom;
    if BitsFrom(d, 8) == BitsFrom(e, 8) {
      BitsDetermine(d, e, 8);
    }
  }

  // ---- the table form

  function Power(x: bv32, n: nat): bv32
    decreases n
  {
    if n == 0 then x else Power(Shift(x), n - 1)
  }

  lemma {:induction false} PowerXor(x: bv32, y: bv32, n: nat)
    ensures Power(Xor(x, y), n) == Xor(Power(x, n), Power(y, n))
    decreases n
  {
    hide Xor, Shift;
    if n > 0 {
      ShiftXor(x, y);
      PowerXor(Shift(x), Shift(y), n - 1);
    }
  }

  lemma ShiftOfBit(b: bool)
    ensures Shift(Bit(b)) == if b then POLY else 0
  {
  }

  /** A message bit and the rest of its byte step together. */
  lemma StepTogether(c: bv32, d: bv32)
    ensures Xor(BitStep(c, Odd(d)), Half(d)) == Shift(Xor(c, d))
  {
    var b := Bit(Odd(d));
    ShiftXor(c, d);
    ShiftXor(c, b);
    ShiftOfBit(Odd(d));
    assert Shift(d) == if Odd(d) then Xor(Half(d), POLY) else Half(d);
    hide Shift, Xor, Half, Odd, Bit;
    XorAssociates(Shift(c), POLY, Half(d));
    XorAssociates(POLY, Half(d), Half(d));
    XorCancels(Shift(c));
  }

  lemma {:induction false} StepsTogether(c: bv32, d: bv32, n: nat)
    ensures Xor(CrcBits(c, BitsFrom(d, n)), Down(d, n)) == Power(Xor(c, d), n)
    decreases n
  {
    hide Xor, Shift, Half, Odd, BitStep;
    if n > 0 {
      var bits := BitsFrom(d, n);
      assert bits[0] == Odd(d) && bits[1..] == BitsFrom(Half(d), n - 1);
      StepTogether(c, d);
      StepsTogether(BitStep(c, Odd(d)), Half(d), n - 1);
    }
  }

  /** The lowest `n` bits are zero. */
  predicate Clear(x: bv32, n: nat)
    decreases n
  {
    n == 0 || (!Odd(x) && Clear(Half(x), n - 1))
  }

  lemma {:induction false} PowerOfClear(x: bv32, n: nat)
    requires Clear(x, n)
    ensures Power(x, n) == Down(x, n)
    decreases n
  {
    hide Odd, Half, Xor;
    if n > 0 {
      PowerOfClear(Half(x), n - 1);
    }
  }

  lemma HighIsClear(x: bv32)
    ensures Clear(HighPart(x), 8)
  {
    var h := HighPart(x);
    var h2 := Half(Half(h));
    var h4 := Half(Half(h2));
    var h6 := Half(Half(h4));
    assert Clear(h6, 2);
    assert Clear(h4, 4);
    assert Clear(h2, 6);
  }

  /** The table of Appendix C.2 of RFC 1662. */
  function Table(v: bv32): bv32 {
    Power(v, 8)
  }

  /** Its byte step. */
  function FcsStep(fcs: bv32, b: bv8): bv32 {
    Xor(Rest(fcs), Table(LowByte(Xor(fcs, Word(b)))))
  }

  function Fcs(fcs: bv32, data: seq<bv8>): bv32
    decreases |data|
  {
    if data == [] then fcs else FcsStep(Fcs(fcs, data[..|data| - 1]), data[|data| - 1])
  }

  lemma SplitWord(x: bv32)
    ensures Xor(HighPart(x), LowByte(x)) == x && Rest(HighPart(x)) == Rest(x)
  {
  }

  lemma ByteGone(c: bv32, b: bv8)
    ensures Rest(Word(b)) == 0 && Rest(Xor(c, Word(b))) == Rest(c)
  {
  }

  lemma ByteStep(c: bv32, b: bv8)
    ensures CrcBits(c, BitsFrom(Word(b), 8)) == FcsStep(c, b)
  {
    hide Xor, Rest, LowByte, HighPart, Word, CrcBits, BitsFrom, Down, Power, Clear;
    var d := Word(b);
    var x := Xor(c, d);
    SplitWord(x);
    ByteGone(c, b);
    HighIsClear(x);
    DownEight(d);
    DownEight(HighPart(x));
    StepsTogether(c, d, 8);
    PowerXor(HighPart(x), LowByte(x), 8);
    PowerOfClear(HighPart(x), 8);
    XorCancels(CrcBits(c, BitsFrom(d, 8)));
  }

  /** The bit-by-bit register is the table-driven one of RFC 1662. */
  lemma {:induction false} IsFcs(c: bv32, data: seq<bv8>)
    ensures CrcBits(c, MessageBits(data)) == Fcs(c, data)
    decreases |data|
  {
    hide BitsFrom, FcsStep, CrcBits;
    if data == [] {
      CrcOfNothing(c);
    } else {
      var n := |data| - 1;
      IsFcs(c, data[..n]);
      CrcBitsJoin(c, MessageBits(data[..n]), BitsFrom(Word(data[n]), 8));
      ByteStep(Fcs(c, data[..n]), data[n]);
    }
  }

  lemma CrcOfNothing(c: bv32)
    ensures CrcBits(c, []) == c
  {
  }

  // ---- the checksum

  function Complement(x: bv32): bv32 {
    x ^ 0xFFFF
  }

  function SwapBytes(x: bv32): bv32 {
    ((x & 0xFF) << 8) | (x >> 8)
  }

  /** Zero for nothing, else the complemented and byte-swapped register. */
  function Checksum(data: seq<bv8>): bv32 {
    if data == [] then 0 else SwapBytes(Complement(Fcs(0xFFFF, data)))
  }

  /** The last three assignments of the source. */
  function Finish(crc: bv32): bv32 {
    var c := !crc;
    ((c << 8) | ((c >> 8) & 0xFF)) & 0xFFFF
  }

  lemma FinishIs(crc: bv32)
    requires Is16(crc)
    ensures Finish(crc) == SwapBytes(Complement(crc)) && Is16(Finish(crc))
  {
  }

  lemma FinishInjective(c: bv32, d: bv32)
    requires Is16(c) && Is16(d) && SwapBytes(Complement(c)) == SwapBytes(Complement(d))
    ensures c == d
  {
  }

  /** What the inner loop does with one bit. */
  function CodeStep(crc: bv32, data: bv32): bv32 {
    if (crc ^ data) & 1 == 1 then (crc >> 1) ^ POLY else crc >> 1
  }

  lemma BitOnly(b: bool)
    ensures Half(Bit(b)) == 0 && (Odd(Bit(b)) <==> b)
  {
  }

  lemma CodeStepIs(crc: bv32, data: bv32)
    ensures CodeStep(crc, data) == BitStep(crc, Odd(data))
  {
    var bit := Bit(Odd(data));
    assert CodeStep(crc, data) == if Odd(Xor(crc, data)) then Xor(Half(crc), POLY) else Half(crc);
    BitOnly(Odd(data));
    hide CodeStep, Odd, Half, Xor, Bit;
    OddXor(crc, data);
    OddXor(crc, bit);
    HalfXor(crc, bit);
    XorCancels(Half(crc));
  }

  /** The eight inner steps. */
  method AddByte(crc: bv32, byte: bv8) returns (r: bv32)
    ensures r == CrcBits(crc, BitsFrom(Word(byte), 8))
  {
    hide BitStep, Odd, Half, CodeStep;
    r := crc;
    var data := byte as bv32;
    assert data == Word(byte);
    var i := 0;
    while i < 8
      invariant 0 <= i <= 8
      invariant CrcBits(r, BitsFrom(data, 8 - i)) == CrcBits(crc, BitsFrom(Word(byte), 8))
    {
      FirstBit(r, data, 8 - i);
      CodeStepIs(r, data);
      r := CodeStep(r, data);
      data := Half(data);
      i := i + 1;
    }
  }

  lemma FirstBit(c: bv32, d: bv32, n: nat)
    requires n > 0
    ensures CrcBits(c, BitsFrom(d, n)) == CrcBits(BitStep(c, Odd(d)), BitsFrom(Half(d), n - 1))
  {
    hide BitStep, Odd, Half;
    var bits := BitsFrom(d, n);
    assert bits[0] == Odd(d) && bits[1..] == BitsFrom(Half(d), n - 1);
  }

  /** `gen_CRC16`: the result has 16 bits and is the RFC 1662 frame check sequence, complemented and
      byte-swapped. */
  method GenCrc16(data: seq<bv8>) returns (r: bv32)
    ensures r == Checksum(data) && Is16(r)
  {
    hide CrcBits, BitsFrom, Finish, Complement, SwapBytes, FcsStep;
    if |data| == 0 {
      return 0;
    }
    var crc: bv32 := 0xFFFF;
    CrcOfNothing(crc);
    var i := 0;
    while i < |data|
      invariant 0 <= i <= |data| && Is16(crc)
      invariant crc == Fcs(0xFFFF, data[..i])
    {
      ByteStep(crc, data[i]);
      CrcBitsBound(crc, BitsFrom(Word(data[i]), 8));
      crc := AddByte(crc, data[i]);
      assert data[..i + 1][..i] == data[..i];
      i := i + 1;
    }
    assert data[..i] == data;
    FinishIs(crc);
    r := Finish(crc);
  }

  // ---- the residue

  function FirstByte(r: bv32): bv8 {
    ((r >> 8) & 0xFF) as bv8
  }

  function SecondByte(r: bv32): bv8 {
    (r & 0xFF) as bv8
  }

  lemma PowerOnce(x: bv32, n: nat)
    requires n > 0
    ensures Power(x, n) == Power(Shift(x), n - 1)
  {
  }

  lemma PowerEight(x0: bv32, x1: bv32, x2: bv32, x3: bv32, x4: bv32, x5: bv32, x6: bv32, x7: bv32, x8: bv32)
    requires x1 == Shift(x0) && x2 == Shift(x1) && x3 == Shift(x2) && x4 == Shift(x3)
    requires x5 == Shift(x4) && x6 == Shift(x5) && x7 == Shift(x6) && x8 == Shift(x7)
    ensures Power(x0, 8) == x8
  {
    assert Power(x8, 0) == x8;
    hide Shift, Power;
    PowerOnce(x0, 8);
    PowerOnce(x1, 7);
    PowerOnce(x2, 6);
    PowerOnce(x3, 5);
    PowerOnce(x4, 4);
    PowerOnce(x5, 3);
    PowerOnce(x6, 2);
    PowerOnce(x7, 1);
  }

  lemma TableOfFF()
    ensures Table(0xFF) == 0x0F78 && Table(0x87) == 0xF0B7
  {
    PowerEight(0xFF, 0x8477, 0xC633, 0xE711, 0xF780, 0x7BC0, 0x3DE0, 0x1EF0, 0x0F78);
    PowerEight(0x87, 0x844B, 0xC62D, 0xE71E, 0x738F, 0xBDCF, 0xDAEF, 0xE97F, 0xF0B7);
  }

  lemma ComplementedBytes(c: bv32)
    requires Is16(c)
    ensures var r := SwapBytes(Complement(c));
            && LowByte(Xor(c, Word(FirstByte(r)))) == 0xFF
            && LowByte(Xor(Xor(Rest(c), 0x0F78), Word(SecondByte(r)))) == 0x87
            && Rest(Xor(Rest(c), 0x0F78)) == 0x0F
  {
  }

  /** Behind a message the receiver's register over the message and its checksum, sent as the two bytes
      stand, is the constant of Appendix C.2 of RFC 1662, whatever the message was. */
  lemma GoodFcs(data: seq<bv8>)
    requires data != []
    ensures Fcs(0xFFFF, data + [FirstByte(Checksum(data)), SecondByte(Checksum(data))]) == 0xF0B8
  {
    var c := Fcs(0xFFFF, data);
    IsFcs(0xFFFF, data);
    assert Is16(0xFFFF);
    CrcBitsBound(0xFFFF, MessageBits(data));
    var r := Checksum(data);
    var a, b := FirstByte(r), SecondByte(r);
    ComplementedBytes(c);
    TableOfFF();
    assert Xor(0x0F, 0xF0B7) == 0xF0B8;
    assert r == SwapBytes(Complement(c));
    hide Table, LowByte, Xor, Rest, Word, FirstByte, SecondByte, Checksum, SwapBytes, Complement, MessageBits, CrcBits;
    assert FcsStep(c, a) == Xor(Rest(c), 0x0F78);
    assert FcsStep(FcsStep(c, a), b) == 0xF0B8;
    FcsTwo(0xFFFF, data, a, b);
  }

  lemma FcsMore(c: bv32, data: seq<bv8>, b: bv8)
    ensures Fcs(c, data + [b]) == FcsStep(Fcs(c, data), b)
  {
    hide FcsStep;
    assert (data + [b])[..|data|] == data;
  }

  lemma FcsTwo(c: bv32, data: seq<bv8>, a: bv8, b: bv8)
    ensures Fcs(c, data + [a, b]) == FcsStep(FcsStep(Fcs(c, data), a), b)
  {
    hide FcsStep, Fcs;
    FcsMore(c, data, a);
    FcsMore(c, data + [a], b);
    assert data + [a] + [b] == data + [a, b];
  }

  /** Two messages whose bits differ only within 16 consecutive ones have different checksums. */
  lemma BurstChangesChecksum(p: seq<bv8>, q: seq<bv8>, head: seq<bool>, a: seq<bool>, b: seq<bool>, tail: seq<bool>)
    requires MessageBits(p) == head + a + tail && MessageBits(q) == head + b + tail
    requires |a| == |b| <= 16 && a != b
    ensures Checksum(p) != Checksum(q)
  {
    BurstTellsApart(0xFFFF, head, a, b, tail);
    assert |p| > 0 && |q| > 0;
    assert Is16(0xFFFF);
    CrcBitsBound(0xFFFF, MessageBits(p));
    CrcBitsBound(0xFFFF, MessageBits(q));
    IsFcs(0xFFFF, p);
    IsFcs(0xFFFF, q);
    hide CrcBits, Fcs, Is16, MessageBits, SwapBytes, Complement;
    if Checksum(p) == Checksum(q) {
      FinishInjective(Fcs(0xFFFF, p), Fcs(0xFFFF, q));
    }
  }

  /** In particular, messages that differ only in one byte or in two adjacent ones. */
  lemma AdjacentBytesChangeChecksum(head: seq<bv8>, x: seq<bv8>, y: seq<bv8>, tail: seq<bv8>)
    requires |x| == |y| <= 2 && x != y
    ensures Checksum(head + x + tail) != Checksum(head + y + tail)
  {
    MessageBitsJoin(head + x, tail);
    MessageBitsJoin(head, x);
    MessageBitsJoin(head + y, tail);
    MessageBitsJoin(head, y);
    MessageBitsDiffer(x, y);
    hide MessageBits, Checksum;
    BurstChangesChecksum(head + x + tail, head + y + tail, MessageBits(head), MessageBits(x), MessageBits(y),
        MessageBits(tail));
  }

  lemma {:induction false} MessageBitsDiffer(x: seq<bv8>, y: seq<bv8>)
    requires |x| == |y| && x != y
    ensures MessageBits(x) != MessageBits(y)
    decreases |x|
  {
    hide BitsFrom;
    var n := |x| - 1;
    var k := |MessageBits(x)| - 8;
    assert MessageBits(x)[..k] == MessageBits(x[..n]) && MessageBits(y)[..k] == MessageBits(y[..n]);
    assert MessageBits(x)[k..] == BitsFrom(Word(x[n]), 8) && MessageBits(y)[k..] == BitsFrom(Word(y[n]), 8);
    if x[n] != y[n] {
      BytesDiffer(x[n], y[n]);
    } else {
      assert x == x[..n] + [x[n]] && y == y[..n] + [y[n]];
      MessageBitsDiffer(x[..n], y[..n]);
    }
  }
}
