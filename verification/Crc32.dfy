/** CRC-32 as the observer computes it, bit by bit, against the table-driven form of
    section 8 of RFC 1952, and what it detects.  The 32-bit register is a sequence of
    32 bits, least significant first. */
module Crc32 {
  import opened Bits

  type Register = r: seq<bool> | |r| == 32 witness Zeros(32)

  const POLY: Register := ToBits(0xedb88320, 32)
  const ONES: Register := Ones(32)
  const ZERO: Register := Zeros(32)

  // ---- one bit ------------------------------------------------------------- //

  /** `crc >> 1`. */
  function Shift(r: Register): Register { r[1..] + [false] }

  /** `(crc >> 1) ^ (poly & (0 - (crc & 1)))`, for any polynomial. */
  function StepBy(poly: Register, r: Register): Register {
    if r[0] then Xor(Shift(r), poly) else Shift(r)
  }

  function Step(r: Register): Register { StepBy(POLY, r) }

  function Iterate(f: Register -> Register, r: Register, n: nat): Register
    decreases r, n
  {
    if n == 0 then r else f(Iterate(f, r, n - 1))
  }

  function Steps(r: Register, n: nat): Register { Iterate(Step, r, n) }

  // ---- bytes ------------------------------------------------------------------ //

  function Word(b: Byte): Register { ToBits(b, 32) }

  /** The register after one input byte. */
  function Feed(r: Register, b: Byte): Register { Steps(Xor(r, Word(b)), 8) }

  function Run(r: Register, bytes: seq<Byte>): Register
    decreases |bytes|
  {
    if bytes == [] then r else Run(Feed(r, bytes[0]), bytes[1..])
  }

  function Checksum(bytes: seq<Byte>): (n: nat)
    ensures n < 0x1_0000_0000
  {
    PowersUsed();
    FromBits(Xor(Run(ONES, bytes), ONES))
  }

  lemma {:induction false} RunAppend(r: Register, s: seq<Byte>, t: seq<Byte>)
    ensures Run(r, s + t) == Run(Run(r, s), t)
    decreases |s|
  {
    if s == [] {
      assert s + t == t;
    } else {
      assert (s + t)[1..] == s[1..] + t;
      RunAppend(Feed(r, s[0]), s[1..], t);
    }
  }

  lemma RunSnoc(r: Register, s: seq<Byte>, b: Byte)
    ensures Run(r, s + [b]) == Feed(Run(r, s), b)
  {
    RunAppend(r, s, [b]);
  }

  /** The eight shifts of one input byte. */
  method EightSteps(r: Register) returns (crc: Register)
    ensures crc == Steps(r, 8)
  {
    crc := r;
    for bit := 0 to 8
      invariant crc == Steps(r, bit)
    {
      var low := crc[0];
      crc := Shift(crc);
      if low {
        crc := Xor(crc, POLY);
      }
    }
  }

  method Crc32Of(value: seq<Byte>) returns (r: nat)
    ensures r == Checksum(value)
  {
    var crc := ONES;
    for i := 0 to |value|
      invariant crc == Run(ONES, value[..i])
    {
      crc := EightSteps(Xor(crc, Word(value[i])));
      assert value[..i + 1] == value[..i] + [value[i]];
      RunSnoc(ONES, value[..i], value[i]);
    }
    assert value[..|value|] == value;
    r := FromBits(Xor(crc, ONES));
  }

  // ---- linearity ----------------------------------------------------------------- //

  ghost predicate Linear(f: Register -> Register) {
    forall x: Register, y: Register :: f(Xor(x, y)) == Xor(f(x), f(y))
  }

  lemma {:induction false} IterateLinear(f: Register -> Register, x: Register, y: Register, n: nat)
    requires Linear(f)
    ensures Iterate(f, Xor(x, y), n) == Xor(Iterate(f, x, n), Iterate(f, y, n))
    decreases n
  {
    if n > 0 {
      IterateLinear(f, x, y, n - 1);
    }
  }

  lemma StepByLinear(poly: Register, x: Register, y: Register)
    ensures StepBy(poly, Xor(x, y)) == Xor(StepBy(poly, x), StepBy(poly, y))
  {
  }

  lemma StepsLinear(x: Register, y: Register, n: nat)
    ensures Steps(Xor(x, y), n) == Xor(Steps(x, n), Steps(y, n))
  {
    forall u: Register, v: Register ensures Step(Xor(u, v)) == Xor(Step(u), Step(v)) { StepByLinear(POLY, u, v); }
    IterateLinear(Step, x, y, n);
  }

  // ---- the table-driven form ---------------------------------------------------- //

  /** `crc & 0xff`. */
  function LowByte(r: Register): Register { r[..8] + Zeros(24) }

  /** `crc >> 8`. */
  function ShiftByte(r: Register): Register { r[8..] + Zeros(8) }

  /** Entry `n` of the table in RFC 1952. */
  function Table(n: Register): Register { Steps(n, 8) }

  function TableFeed(r: Register, b: Byte): Register {
    Xor(Table(LowByte(Xor(r, Word(b)))), ShiftByte(r))
  }

  function TableRun(r: Register, bytes: seq<Byte>): Register
    decreases |bytes|
  {
    if bytes == [] then r else TableRun(TableFeed(r, bytes[0]), bytes[1..])
  }

  ghost predicate ShiftsZero(f: Register -> Register) {
    forall r: Register :: !r[0] ==> f(r) == Shift(r)
  }

  lemma {:induction false} IterateZeros(f: Register -> Register, r: Register, n: nat)
    requires ShiftsZero(f)
    requires n <= 32 && forall i :: 0 <= i < n ==> !r[i]
    ensures Iterate(f, r, n) == r[n..] + Zeros(n)
    decreases n
  {
    if n > 0 {
      IterateZeros(f, r, n - 1);
      assert Shift(r[n - 1..] + Zeros(n - 1)) == r[n..] + Zeros(n);
    }
  }

  /** While only zeros are shifted out, steps are shifts. */
  lemma ZerosShiftOut(r: Register, n: nat)
    requires n <= 32 && forall i :: 0 <= i < n ==> !r[i]
    ensures Steps(r, n) == r[n..] + Zeros(n)
  {
    IterateZeros(Step, r, n);
  }

  lemma WordIsLow(b: Byte)
    ensures forall i :: 8 <= i < 32 ==> !Word(b)[i]
  {
    PowersUsed();
    HighBitsZero(b, 8, 32);
  }

  lemma FeedIsTable(r: Register, b: Byte)
    ensures Feed(r, b) == TableFeed(r, b)
  {
    var x := Xor(r, Word(b));
    var high := Zeros(8) + x[8..];
    WordIsLow(b);
    assert x == Xor(LowByte(x), high);
    StepsLinear(LowByte(x), high, 8);
    ZerosShiftOut(high, 8);
    assert high[8..] + Zeros(8) == ShiftByte(r);
  }

  /** The bitwise loop computes the checksum RFC 1952 defines by its table. */
  lemma {:induction false} RunIsTable(r: Register, bytes: seq<Byte>)
    ensures Run(r, bytes) == TableRun(r, bytes)
    decreases |bytes|
  {
    if bytes != [] {
      FeedIsTable(r, bytes[0]);
      RunIsTable(Feed(r, bytes[0]), bytes[1..]);
    }
  }

  lemma XorTwice(r: Register, w: Register)
    ensures Xor(Xor(r, w), w) == r
  {
  }

  // ---- which CRC it is ---------------------------------------------------------------- //

  function Bit(b: bool): nat { if b then 1 else 0 }

  /** One hexadecimal digit below the rest. */
  lemma AddDigit(rest: seq<bool>, v: nat, a: bool, b: bool, c: bool, d: bool) returns (bits: seq<bool>)
    requires FromBits(rest) == v
    ensures |bits| == |rest| + 4 && bits[4..] == rest
    ensures bits[0] == a && bits[1] == b && bits[2] == c && bits[3] == d
    ensures FromBits(bits) == 16 * v + 8 * Bit(d) + 4 * Bit(c) + 2 * Bit(b) + Bit(a)
  {
    bits := [a, b, c, d] + rest;
    assert bits[1..][1..][1..][1..] == rest;
    assert FromBits(bits) == Bit(a) + 2 * FromBits(bits[1..]);
    assert FromBits(bits[1..]) == Bit(b) + 2 * FromBits(bits[1..][1..]);
    assert FromBits(bits[1..][1..]) == Bit(c) + 2 * FromBits(bits[1..][1..][1..]);
    assert FromBits(bits[1..][1..][1..]) == Bit(d) + 2 * FromBits(bits[1..][1..][1..][1..]);
  }

  /** The exponents below 32 of the generator polynomial of ISO 3309. */
  const EXPONENTS: set<int> := {0, 1, 2, 4, 5, 7, 8, 10, 11, 12, 16, 22, 23, 26}

  lemma PolyHigh() returns (bits: seq<bool>)
    ensures |bits| == 16 && FromBits(bits) == 0xedb8
    ensures forall i :: 0 <= i < 16 ==> (bits[i] <==> 15 - i in EXPONENTS)
  {
    var d7 := AddDigit([], 0x0, false, true, true, true);
    var d6 := AddDigit(d7, 0xe, true, false, true, true);
    var d5 := AddDigit(d6, 0xed, true, true, false, true);
    bits := AddDigit(d5, 0xedb, false, false, false, true);
  }

  lemma PolyDigits() returns (bits: seq<bool>)
    ensures |bits| == 32 && FromBits(bits) == 0xedb88320
    ensures forall i :: 0 <= i < 32 ==> (bits[i] <==> 31 - i in EXPONENTS)
  {
    var d4 := PolyHigh();
    var d3 := AddDigit(d4, 0xedb8, false, false, false, true);
    var d2 := AddDigit(d3, 0xedb88, true, true, false, false);
    var d1 := AddDigit(d2, 0xedb883, false, true, false, false);
    bits := AddDigit(d1, 0xedb8832, false, false, false, false);
    assert bits[16..] == d4;
    assert forall i :: 16 <= i < 32 ==> bits[i] == d4[i - 16];
  }

  lemma Spelled(bits: seq<bool>, n: nat)
    requires FromBits(bits) == n
    ensures ToBits(n, |bits|) == bits
  {
    ToFrom(bits);
  }

  /** The register holds the polynomial with the highest exponent first. */
  lemma PolyTerms(i: nat)
    requires i < 32
    ensures POLY[i] <==> 31 - i in EXPONENTS
  {
    var bits := PolyDigits();
    Spelled(bits, 0xedb88320);
  }

  // ---- the first and the last inversion ------------------------------------------------- //

  lemma {:induction false} NoBits(k: nat)
    ensures FromBits(Zeros(k)) == 0
    decreases k
  {
    if k > 0 {
      NoBits(k - 1);
      assert Zeros(k)[1..] == Zeros(k - 1);
    }
  }

  lemma ZeroByte(rest: seq<bool>, v: nat) returns (bits: seq<bool>)
    requires FromBits(rest) == v
    ensures bits == Zeros(8) + rest && FromBits(bits) == 256 * v
  {
    var high := AddDigit(rest, v, false, false, false, false);
    bits := AddDigit(high, 16 * v, false, false, false, false);
  }

  lemma OnesAbove() returns (bits: seq<bool>)
    ensures bits == Zeros(24) + Ones(8) && FromBits(bits) == 0xff000000
  {
    var ones := OnesBelow([]);
    var b2 := ZeroByte(ones, 0xff);
    var b1 := ZeroByte(b2, 0xff00);
    bits := ZeroByte(b1, 0xff0000);
  }

  lemma OnesBelow(rest: seq<bool>) returns (bits: seq<bool>)
    requires FromBits(rest) == 0
    ensures bits == Ones(8) + rest && FromBits(bits) == 255
  {
    var high := AddDigit(rest, 0, true, true, true, true);
    bits := AddDigit(high, 15, true, true, true, true);
  }

  lemma OnesWord()
    ensures Word(255) == Ones(8) + Zeros(24)
  {
    NoBits(24);
    var bits := OnesBelow(Zeros(24));
    Spelled(bits, 255);
  }

  lemma OneByte(r: Register, b: Byte, x: Register)
    requires Feed(r, b) == x
    ensures Run(r, [b]) == x
  {
    assert Run(Feed(r, b), []) == Feed(r, b);
  }

  lemma FeedOnes(w: Register)
    requires w == Ones(8) + Zeros(24)
    ensures Steps(Xor(ONES, w), 8) == Ones(24) + Zeros(8)
  {
    ZerosShiftOut(Xor(ONES, w), 8);
  }

  /** The register starts as all ones and is inverted at the end: no byte at all has the
      checksum 0, a byte of ones 0xff000000. */
  lemma OnesByte()
    ensures Checksum([255]) == 0xff000000 && Checksum([]) == 0
  {
    OnesWord();
    FeedOnes(Word(255));
    OneByte(ONES, 255, Ones(24) + Zeros(8));
    var bits := OnesAbove();
    assert Xor(Ones(24) + Zeros(8), ONES) == bits;
    NoBits(32);
    assert Xor(ONES, ONES) == Zeros(32);
  }

  // ---- the update is a bijection --------------------------------------------------- //

  lemma PolyTop()
    ensures POLY[31]
  {
    PowersUsed();
    assert Pow2(31) == 0x8000_0000;
    TopBit(0xedb88320, 32);
  }

  /** A step can be undone: the top bit tells whether the polynomial was added. */
  function UnstepBy(poly: Register, r: Register): Register {
    if r[31] then [true] + Xor(r, poly)[..31] else [false] + r[..31]
  }

  function Unstep(r: Register): Register { UnstepBy(POLY, r) }

  lemma TopAfter(poly: Register, r: Register)
    requires poly[31]
    ensures StepBy(poly, r)[31] == r[0]
  {
    assert !Shift(r)[31];
  }

  lemma UnstepByStepBy(poly: Register, r: Register)
    requires poly[31]
    ensures UnstepBy(poly, StepBy(poly, r)) == r
  {
    TopAfter(poly, r);
    var after := StepBy(poly, r);
    if r[0] {
      XorTwice(Shift(r), poly);
      assert Xor(after, poly)[..31] == r[1..];
    } else {
      assert after[..31] == r[1..];
    }
    assert r == [r[0]] + r[1..];
  }

  lemma StepByUnstepBy(poly: Register, r: Register)
    requires poly[31]
    ensures StepBy(poly, UnstepBy(poly, r)) == r
  {
    var before := UnstepBy(poly, r);
    if r[31] {
      var x := Xor(r, poly);
      assert !x[31];
      assert Shift(before) == x[..31] + [false] == x;
      XorTwice(r, poly);
    } else {
      assert Shift(before) == r[..31] + [false] == r;
    }
  }

  lemma UnstepStep(r: Register)
    ensures Unstep(Step(r)) == r
  {
    PolyTop();
    UnstepByStepBy(POLY, r);
  }

  lemma StepUnstep(r: Register)
    ensures Step(Unstep(r)) == r
  {
    PolyTop();
    StepByUnstepBy(POLY, r);
  }

  function Unsteps(r: Register, n: nat): Register { Iterate(Unstep, r, n) }

  ghost predicate Undoes(g: Register -> Register, f: Register -> Register) {
    forall r :: g(f(r)) == r
  }

  lemma {:induction false} IterateInside(f: Register -> Register, r: Register, n: nat)
    ensures f(Iterate(f, r, n)) == Iterate(f, f(r), n)
    decreases n
  {
    if n > 0 {
      IterateInside(f, r, n - 1);
    }
  }

  lemma {:induction false} IterateUndone(f: Register -> Register, g: Register -> Register, r: Register, n: nat)
    requires Undoes(g, f)
    ensures Iterate(g, Iterate(f, r, n), n) == r
    decreases n
  {
    if n > 0 {
      IterateInside(g, Iterate(f, r, n), n - 1);
      IterateUndone(f, g, r, n - 1);
    }
  }

  lemma UnstepsSteps(r: Register, n: nat)
    ensures Unsteps(Steps(r, n), n) == r
  {
    forall x ensures Unstep(Step(x)) == x { UnstepStep(x); }
    IterateUndone(Step, Unstep, r, n);
  }

  lemma StepsUnsteps(r: Register, n: nat)
    ensures Steps(Unsteps(r, n), n) == r
  {
    forall x ensures Step(Unstep(x)) == x { StepUnstep(x); }
    IterateUndone(Unstep, Step, r, n);
  }

  /** The register before byte `b`. */
  function Unfeed(r: Register, b: Byte): Register { Xor(Unsteps(r, 8), Word(b)) }

  /** For each byte the update is a bijection on registers. */
  lemma FeedBijective(r: Register, b: Byte)
    ensures Unfeed(Feed(r, b), b) == r && Feed(Unfeed(r, b), b) == r
  {
    UnstepsSteps(Xor(r, Word(b)), 8);
    XorTwice(r, Word(b));
    StepsUnsteps(r, 8);
    XorTwice(Unsteps(r, 8), Word(b));
  }

  lemma {:induction false} RunInjective(x: Register, y: Register, bytes: seq<Byte>)
    requires Run(x, bytes) == Run(y, bytes)
    ensures x == y
    decreases |bytes|
  {
    if bytes != [] {
      RunInjective(Feed(x, bytes[0]), Feed(y, bytes[0]), bytes[1..]);
      FeedBijective(x, bytes[0]);
      FeedBijective(y, bytes[0]);
    }
  }

  // ---- bursts of four bytes ------------------------------------------------------- //

  /** All bits from `k` on are zero. */
  predicate Below(r: Register, k: nat) { forall i :: k <= i < 32 ==> !r[i] }

  lemma StepByShifted(poly: Register, r: Register, k: nat)
    requires poly[31] && k < 32 && Below(StepBy(poly, r), k)
    ensures !r[0] && StepBy(poly, r) == Shift(r) && Below(r, k + 1)
  {
    TopAfter(poly, r);
    assert !StepBy(poly, r)[31];
    forall i | k + 1 <= i < 32
      ensures !r[i]
    {
      assert Shift(r)[i - 1] == r[i];
    }
  }

  /** A step whose result has a clear top bit only shifted. */
  lemma StepShifted(r: Register, k: nat)
    requires k < 32 && Below(Step(r), k)
    ensures !r[0] && Step(r) == Shift(r) && Below(r, k + 1)
  {
    PolyTop();
    StepByShifted(POLY, r, k);
  }

  /** A step that leaves a small register only shifted. */
  ghost predicate SmallMeansShifted(f: Register -> Register) {
    forall r: Register, k: nat :: k < 32 && Below(f(r), k) ==> !r[0] && f(r) == Shift(r) && Below(r, k + 1)
  }

  lemma {:induction false} IterateShifted(f: Register -> Register, r: Register, n: nat, k: nat)
    requires ShiftsZero(f) && SmallMeansShifted(f)
    requires n + k <= 32 && Below(Iterate(f, r, n), k)
    ensures Below(r, n + k) && forall i :: 0 <= i < n ==> !r[i]
    decreases n
  {
    if n > 0 {
      var last := Iterate(f, r, n - 1);
      assert Below(f(last), k);
      IterateShifted(f, r, n - 1, k + 1);
      IterateZeros(f, r, n - 1);
      assert last[0] == r[n - 1];
    }
  }

  /** If the steps leave a small register, they only shifted out zeros, and the register
      before them was small too. */
  lemma StepsShifted(r: Register, n: nat, k: nat)
    requires n + k <= 32 && Below(Steps(r, n), k)
    ensures Below(r, n + k) && forall i :: 0 <= i < n ==> !r[i]
    ensures Steps(r, n) == r[n..] + Zeros(n)
  {
    forall x: Register, j: nat | j < 32 && Below(Step(x), j)
      ensures !x[0] && Step(x) == Shift(x) && Below(x, j + 1)
    {
      StepShifted(x, j);
    }
    IterateShifted(Step, r, n, k);
    ZerosShiftOut(r, n);
  }

  /** The sum of two registers fed different bytes, byte by byte: `e` is the difference
      of the messages so far, and the sum stays what feeding `e` would give. */
  lemma FeedSum(x: Register, y: Register, a: Byte, b: Byte)
    ensures Xor(Feed(x, a), Feed(y, b)) == Steps(Xor(Xor(x, y), Xor(Word(a), Word(b))), 8)
  {
    assert Xor(Xor(x, y), Xor(Word(a), Word(b))) == Xor(Xor(x, Word(a)), Xor(y, Word(b)));
    StepsLinear(Xor(x, Word(a)), Xor(y, Word(b)), 8);
  }

  lemma SameWord(a: Byte, b: Byte)
    requires Xor(Word(a), Word(b)) == ZERO
    ensures a == b
  {
    assert forall i :: 0 <= i < 32 ==> Word(a)[i] == Word(b)[i];
    PowersUsed();
    ToInjective(a, b, 32);
  }

  /** One byte backwards: registers that differ by little after a byte differed by eight
      bits more before it, and equal registers were then fed equal bytes. */
  lemma ByteDifference(x: Register, y: Register, a: Byte, b: Byte, k: nat)
    requires 8 + k <= 32 && Below(Xor(Feed(x, a), Feed(y, b)), k)
    ensures Below(Xor(x, y), 8 + k)
    ensures x == y ==> a == b
  {
    var e := Xor(Word(a), Word(b));
    var d := Xor(Xor(x, y), e);
    FeedSum(x, y, a, b);
    StepsShifted(d, 8, k);
    WordIsLow(a);
    WordIsLow(b);
    assert forall i :: 8 <= i < 32 ==> Xor(x, y)[i] == d[i];
    if x == y {
      assert forall i :: 0 <= i < 32 ==> !e[i];
      assert e == ZERO;
      SameWord(a, b);
    }
  }

  /** Read backwards: if after the rest of a short window the registers differ by less
      than 2^k, then before it they differ by less than 2^(k + 8n), and where that is
      nothing at all the two windows are the same. */
  lemma {:induction false} WindowDifference(x: Register, y: Register, u: seq<Byte>, v: seq<Byte>, k: nat)
    requires |u| == |v| && 8 * |u| + k <= 32
    requires Below(Xor(Run(x, u), Run(y, v)), k)
    ensures Below(Xor(x, y), 8 * |u| + k)
    ensures x == y ==> u == v
    decreases |u|
  {
    if u != [] {
      WindowDifference(Feed(x, u[0]), Feed(y, v[0]), u[1..], v[1..], k);
      ByteDifference(x, y, u[0], v[0], 8 * |u[1..]| + k);
      assert u == [u[0]] + u[1..] && v == [v[0]] + v[1..];
    }
  }

  lemma XorSelf(x: Register, y: Register)
    ensures Below(Xor(x, y), 0) <==> x == y
  {
    assert Below(Xor(x, y), 0) ==> forall i :: 0 <= i < 32 ==> x[i] == y[i];
  }

  /** Two messages that differ only inside a window of at most four consecutive bytes
      have different checksums. */
  lemma BurstDetected(before: seq<Byte>, u: seq<Byte>, v: seq<Byte>, after: seq<Byte>)
    requires |u| == |v| <= 4 && u != v
    ensures Checksum(before + u + after) != Checksum(before + v + after)
  {
    var r := Run(ONES, before);
    if Run(r, u) == Run(r, v) {
      XorSelf(Run(r, u), Run(r, v));
      WindowDifference(r, r, u, v, 0);
      assert false;
    }
    RunAppend(ONES, before, u);
    RunAppend(ONES, before, v);
    RunAppend(ONES, before + u, after);
    RunAppend(ONES, before + v, after);
    var x, y := Run(ONES, before + u + after), Run(ONES, before + v + after);
    if FromBits(Xor(x, ONES)) == FromBits(Xor(y, ONES)) {
      FromInjective(Xor(x, ONES), Xor(y, ONES));
      XorTwice(x, ONES);
      XorTwice(y, ONES);
      RunInjective(Run(r, u), Run(r, v), after);
      assert false;
    }
  }
}
