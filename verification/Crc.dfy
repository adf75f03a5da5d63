/**
 The reflected CRC-32 with the frame-check polynomial of section 3.2.9 of IEEE Std
 802.3-2018, and what its checksum detects.
 */
module Crc {
  type Byte = bv8

  const POLYNOMIAL: bv32 := 0xedb8_8320

  /** Addition of polynomials over two elements. */
  function Add(a: bv32, b: bv32): bv32 {
    a ^ b
  }

  predicate Odd(c: bv32) {
    c & 1 == 1
  }

  predicate High(c: bv32) {
    c & 0x8000_0000 != 0
  }

  function Half(c: bv32): bv32 {
    c >> 1
  }

  /** One bit of the register: halve, and add the polynomial when a bit falls out. */
  function BitStep(c: bv32): bv32 {
    (c >> 1) ^ (POLYNOMIAL & (0 - (c & 1)))
  }

  function BitSteps(c: bv32, n: nat): bv32 {
    if n == 0 then c else BitStep(BitSteps(c, n - 1))
  }

  function Wide(b: Byte): bv32 {
    b as bv32
  }

  /** The register after one more byte. */
  function ByteStep(c: bv32, b: Byte): bv32 {
    BitSteps(Add(c, Wide(b)), 8)
  }

  /** The register after all of `bytes`, starting from `c`. */
  function Register(c: bv32, bytes: seq<Byte>): bv32 {
    if bytes == [] then c else ByteStep(Register(c, bytes[..|bytes| - 1]), bytes[|bytes| - 1])
  }

  const ALL_ONES: bv32 := 0xffff_ffff

  function Complement(c: bv32): bv32 {
    !c
  }

  function Crc32(bytes: seq<Byte>): bv32 {
    Complement(Register(ALL_ONES, bytes))
  }

  method ComputeCrc32(bytes: seq<Byte>) returns (crc: bv32)
    ensures crc == Crc32(bytes)
  {
    crc := ALL_ONES;
    for i := 0 to |bytes|
      invariant crc == Register(ALL_ONES, bytes[..i])
    {
      crc := AddByte(crc, bytes[i]);
      assert bytes[..i + 1][..i] == bytes[..i];
      hide ByteStep;
    }
    assert bytes[..|bytes|] == bytes;
    crc := !crc;
    hide Register;
  }

  /** The inner loop over the eight bits of one byte. */
  method AddByte(before: bv32, byte: Byte) returns (crc: bv32)
    ensures crc == ByteStep(before, byte)
  {
    crc := before ^ (byte as bv32);
    ghost var start := Add(before, Wide(byte));
    assert crc == start;
    hide Add, Wide;
    for k := 0 to 8
      invariant crc == BitSteps(start, k)
    {
      crc := ShiftOut(crc);
      hide BitStep;
    }
  }

  method ShiftOut(before: bv32) returns (crc: bv32)
    ensures crc == BitStep(before)
  {
    var mask: bv32 := 0 - (before & 1);
    crc := (before >> 1) ^ (POLYNOMIAL & mask);
  }

  // ---------------------------------------------------------- the register is permuted

  function Unshift(c: bv32, bit: bv32): bv32 {
    (c << 1) | bit
  }

  /** Undoes one bit: the top bit tells whether the polynomial was added. */
  function BitBack(c: bv32): bv32 {
    if High(c) then Unshift(Add(c, POLYNOMIAL), 1) else Unshift(c, 0)
  }

  lemma OddStepBack(c: bv32)
    requires Odd(c)
    ensures High(BitStep(c)) && Unshift(Add(BitStep(c), POLYNOMIAL), 1) == c
  {
  }

  lemma EvenStepBack(c: bv32)
    requires !Odd(c)
    ensures !High(BitStep(c)) && Unshift(BitStep(c), 0) == c
  {
  }

  lemma HighBackStep(c: bv32)
    requires High(c)
    ensures BitStep(Unshift(Add(c, POLYNOMIAL), 1)) == c
  {
  }

  lemma LowBackStep(c: bv32)
    requires !High(c)
    ensures BitStep(Unshift(c, 0)) == c
  {
  }

  lemma BitStepInverse(c: bv32)
    ensures BitBack(BitStep(c)) == c && BitStep(BitBack(c)) == c
  {
    hide BitStep, High, Odd, Add, Unshift;
    if Odd(c) {
      OddStepBack(c);
    } else {
      EvenStepBack(c);
    }
    if High(c) {
      HighBackStep(c);
    } else {
      LowBackStep(c);
    }
  }

  function BitsBack(c: bv32, n: nat): bv32
    decreases n
  {
    if n == 0 then c else BitsBack(BitBack(c), n - 1)
  }

  lemma {:induction false} BitStepsInverse(c: bv32, n: nat)
    ensures BitsBack(BitSteps(c, n), n) == c && BitSteps(BitsBack(c, n), n) == c
    decreases n
  {
    hide BitStep, BitBack;
    if n > 0 {
      BitStepInverse(BitSteps(c, n - 1));
      BitStepsInverse(c, n - 1);
      BitStepsInverse(BitBack(c), n - 1);
      BitStepInverse(c);
    }
  }

  lemma AddTwice(a: bv32, b: bv32)
    ensures Add(Add(a, b), b) == a
  {
  }

  function ByteBack(c: bv32, b: Byte): bv32 {
    Add(BitsBack(c, 8), Wide(b))
  }

  /** For each byte, the byte step is a bijection of the register. */
  lemma ByteStepIsBijection(c: bv32, b: Byte)
    ensures ByteBack(ByteStep(c, b), b) == c && ByteStep(ByteBack(c, b), b) == c
  {
    hide BitSteps, BitsBack, Add, Wide;
    BitStepsInverse(Add(c, Wide(b)), 8);
    BitStepsInverse(c, 8);
    AddTwice(c, Wide(b));
    AddTwice(BitsBack(c, 8), Wide(b));
  }

  lemma {:induction false} RegisterSplits(c: bv32, a: seq<Byte>, b: seq<Byte>)
    ensures Register(c, a + b) == Register(Register(c, a), b)
  {
    hide ByteStep;
    if b == [] {
      assert a + b == a;
    } else {
      assert (a + b)[..|a + b| - 1] == a + b[..|b| - 1];
      RegisterSplits(c, a, b[..|b| - 1]);
    }
  }

  lemma {:induction false} RegisterInjective(c: bv32, d: bv32, bytes: seq<Byte>)
    requires Register(c, bytes) == Register(d, bytes)
    ensures c == d
  {
    hide ByteStep, ByteBack;
    if bytes != [] {
      var front := bytes[..|bytes| - 1];
      ByteStepIsBijection(Register(c, front), bytes[|bytes| - 1]);
      ByteStepIsBijection(Register(d, front), bytes[|bytes| - 1]);
      RegisterInjective(c, d, front);
    }
  }

  // ------------------------------------------------------------ four bytes at a time

  lemma OddStep(c: bv32)
    requires Odd(c)
    ensures BitStep(c) == Add(Half(c), POLYNOMIAL)
  {
  }

  lemma EvenStep(c: bv32)
    requires !Odd(c)
    ensures BitStep(c) == Half(c)
  {
  }

  lemma Step(c: bv32)
    ensures if Odd(c) then BitStep(c) == Add(Half(c), POLYNOMIAL) else BitStep(c) == Half(c)
  {
    hide BitStep, Add, Half, Odd;
    if Odd(c) {
      OddStep(c);
    } else {
      EvenStep(c);
    }
  }

  lemma HalfIsLinear(a: bv32, b: bv32)
    ensures Half(Add(a, b)) == Add(Half(a), Half(b))
  {
  }

  lemma OddIsLinear(a: bv32, b: bv32)
    ensures Odd(Add(a, b)) <==> Odd(a) != Odd(b)
  {
  }

  lemma AddCancels(x: bv32, y: bv32, p: bv32)
    ensures Add(Add(x, p), Add(y, p)) == Add(x, y)
  {
    hide *;
    AddAssociates(Add(x, p), y, p);
    AddSwaps(x, y, p);
    AddTwice(Add(x, y), p);
  }

  lemma AddSwaps(x: bv32, y: bv32, p: bv32)
    ensures Add(Add(x, p), y) == Add(Add(x, y), p)
  {
    hide *;
    AddAssociates(x, p, y);
    AddAssociates(x, y, p);
    AddCommutes(p, y);
  }

  lemma AddCommutes(a: bv32, b: bv32)
    ensures Add(a, b) == Add(b, a)
  {
  }

  lemma AddAssociates(x: bv32, y: bv32, p: bv32)
    ensures Add(x, Add(y, p)) == Add(Add(x, y), p)
  {
  }

  lemma BitStepIsLinear(a: bv32, b: bv32)
    ensures BitStep(Add(a, b)) == Add(BitStep(a), BitStep(b))
  {
    hide *;
    Step(a);
    Step(b);
    Step(Add(a, b));
    HalfIsLinear(a, b);
    OddIsLinear(a, b);
    AddCancels(Half(a), Half(b), POLYNOMIAL);
    AddSwaps(Half(a), Half(b), POLYNOMIAL);
    AddAssociates(Half(a), Half(b), POLYNOMIAL);
  }

  lemma {:induction false} BitStepsAreLinear(a: bv32, b: bv32, n: nat)
    ensures BitSteps(Add(a, b), n) == Add(BitSteps(a, n), BitSteps(b, n))
  {
    hide BitStep, Add;
    if n > 0 {
      BitStepsAreLinear(a, b, n - 1);
      BitStepIsLinear(BitSteps(a, n - 1), BitSteps(b, n - 1));
    }
  }

  lemma {:induction false} BitStepsCompose(c: bv32, m: nat, n: nat)
    ensures BitSteps(BitSteps(c, m), n) == BitSteps(c, m + n)
  {
    hide BitStep;
    if n > 0 {
      BitStepsCompose(c, m, n - 1);
    }
  }

  function Double(c: bv32): bv32 {
    c << 1
  }

  predicate Clear(c: bv32, mask: bv32) {
    c & mask == 0
  }

  /** Doubling loses nothing while the top bit is clear, and a step then only halves. */
  lemma DoubleSteps(c: bv32, mask: bv32)
    requires Clear(c, mask) && mask & 0x8000_0000 != 0
    ensures BitStep(Double(c)) == c && Clear(Double(c), mask << 1)
  {
  }

  function Double8(c: bv32): bv32 {
    Double(Double(Double(Double(Double(Double(Double(Double(c))))))))
  }

  /** Eight steps undo eight doublings of a word whose top byte is clear. */
  lemma EightSteps(c: bv32)
    requires Clear(c, 0xff00_0000)
    ensures BitSteps(Double8(c), 8) == c
  {
    hide BitStep, Double, Clear;
    var c1 := Double(c);
    DoubleSteps(c, 0xff00_0000);
    var c2 := Double(c1);
    DoubleSteps(c1, 0xfe00_0000);
    var c3 := Double(c2);
    DoubleSteps(c2, 0xfc00_0000);
    var c4 := Double(c3);
    DoubleSteps(c3, 0xf800_0000);
    var c5 := Double(c4);
    DoubleSteps(c4, 0xf000_0000);
    var c6 := Double(c5);
    DoubleSteps(c5, 0xe000_0000);
    var c7 := Double(c6);
    DoubleSteps(c6, 0xc000_0000);
    var c8 := Double(c7);
    DoubleSteps(c7, 0x8000_0000);
    assert c8 == Double8(c);
    assert BitSteps(c8, 1) == c7;
    assert BitSteps(c8, 2) == c6;
    assert BitSteps(c8, 3) == c5;
    assert BitSteps(c8, 4) == c4;
    assert BitSteps(c8, 5) == c3;
    assert BitSteps(c8, 6) == c2;
    assert BitSteps(c8, 7) == c1;
  }

  /** A byte below a word. */
  function Push(b: Byte, w: bv32): bv32 {
    Add(Wide(b), w << 8)
  }

  /** Four bytes as a little-endian word. */
  function Word(b0: Byte, b1: Byte, b2: Byte, b3: Byte): bv32 {
    Push(b0, Push(b1, Push(b2, Wide(b3))))
  }

  lemma DoublesAreShifts(c: bv32)
    ensures Double8(c) == c << 8
  {
  }

  lemma ByteIsSmall(b: Byte)
    ensures Clear(Wide(b), 0xffff_ff00) && Clear(Wide(b), 0xff00_0000)
    ensures Clear(Wide(b) << 8, 0xff00_0000)
    ensures Clear((Wide(b) << 8) << 8, 0xff00_0000)
  {
  }

  /** A byte may be added early, raised past the bits still to come. */
  lemma PendingByte(c: bv32, b: Byte)
    ensures Add(BitSteps(c, 8), Wide(b)) == BitSteps(Add(c, Double8(Wide(b))), 8)
    ensures Add(BitSteps(c, 16), Wide(b)) == BitSteps(Add(c, Double8(Double8(Wide(b)))), 16)
    ensures Add(BitSteps(c, 24), Wide(b)) == BitSteps(Add(c, Double8(Double8(Double8(Wide(b))))), 24)
  {
    var x0 := Wide(b);
    var x1 := Double8(x0);
    var x2 := Double8(x1);
    var x3 := Double8(x2);
    RaisedBytes(b);
    hide *;
    BitStepsAreLinear(c, x1, 8);
    BitStepsAreLinear(c, x2, 16);
    BitStepsAreLinear(c, x3, 24);
    EightSteps(x0);
    EightSteps(x1);
    EightSteps(x2);
    BitStepsCompose(x2, 8, 8);
    BitStepsCompose(x3, 8, 16);
    BitStepsCompose(x2, 8, 8);
  }

  lemma RaisedBytes(b: Byte)
    ensures Clear(Wide(b), 0xff00_0000) && Clear(Double8(Wide(b)), 0xff00_0000)
    ensures Clear(Double8(Double8(Wide(b))), 0xff00_0000)
  {
    hide Double8, Clear, Wide;
    ByteIsSmall(b);
    DoublesAreShifts(Wide(b));
    DoublesAreShifts(Wide(b) << 8);
  }

  /** Four bytes act as one word: the register is their sum, stepped thirty-two bits. */
  lemma FourBytes(c: bv32, b0: Byte, b1: Byte, b2: Byte, b3: Byte)
    ensures Register(c, [b0, b1, b2, b3]) == BitSteps(Add(c, Word(b0, b1, b2, b3)), 32)
  {
    FourSteps(c, b0, b1, b2, b3);
    hide ByteStep, BitSteps, Word;
    assert [b0, b1, b2, b3][..3] == [b0, b1, b2] && [b0, b1, b2][..2] == [b0, b1] && [b0, b1][..1] == [b0];
    assert [b0][..0] == [];
    assert Register(c, [b0]) == ByteStep(c, b0);
    assert Register(c, [b0, b1]) == ByteStep(ByteStep(c, b0), b1);
    assert Register(c, [b0, b1, b2]) == ByteStep(ByteStep(ByteStep(c, b0), b1), b2);
  }

  lemma FourSteps(c: bv32, b0: Byte, b1: Byte, b2: Byte, b3: Byte)
    ensures ByteStep(ByteStep(ByteStep(ByteStep(c, b0), b1), b2), b3) == BitSteps(Add(c, Word(b0, b1, b2, b3)), 32)
  {
    hide BitSteps, Add, Wide, Double8;
    var x0, x1, x2, x3 := Wide(b0), Double8(Wide(b1)), Double8(Double8(Wide(b2))), Double8(Double8(Double8(Wide(b3))));
    var w1 := Add(c, x0);
    var w2 := Add(w1, x1);
    var w3 := Add(w2, x2);
    var w4 := Add(w3, x3);
    PendingByte(w1, b1);
    BitStepsCompose(w2, 8, 8);
    PendingByte(w2, b2);
    BitStepsCompose(w3, 16, 8);
    PendingByte(w3, b3);
    BitStepsCompose(w4, 24, 8);
    AddAssociates(c, x0, x1);
    AddAssociates(c, Add(x0, x1), x2);
    AddAssociates(c, Add(Add(x0, x1), x2), x3);
    WordIsSum(b0, b1, b2, b3);
    hide Word;
  }

  lemma DoubleIsLinear(a: bv32, b: bv32)
    ensures Double(Add(a, b)) == Add(Double(a), Double(b))
  {
  }

  lemma Double8IsLinear(a: bv32, b: bv32)
    ensures Double8(Add(a, b)) == Add(Double8(a), Double8(b))
  {
    hide Double, Add;
    Double4IsLinear(a, b);
    Double4IsLinear(Double(Double(Double(Double(a)))), Double(Double(Double(Double(b)))));
  }

  lemma Double4IsLinear(a: bv32, b: bv32)
    ensures Double(Double(Double(Double(Add(a, b)))))
         == Add(Double(Double(Double(Double(a)))), Double(Double(Double(Double(b)))))
  {
    hide Double, Add;
    DoubleIsLinear(a, b);
    DoubleIsLinear(Double(a), Double(b));
    DoubleIsLinear(Double(Double(a)), Double(Double(b)));
    DoubleIsLinear(Double(Double(Double(a))), Double(Double(Double(b))));
  }

  lemma PushDoubles(b: Byte, w: bv32)
    ensures Push(b, w) == Add(Wide(b), Double8(w))
  {
    hide Double8, Add, Wide;
    DoublesAreShifts(w);
  }

  lemma WordIsSum(b0: Byte, b1: Byte, b2: Byte, b3: Byte)
    ensures Word(b0, b1, b2, b3)
         == Add(Add(Add(Wide(b0), Double8(Wide(b1))), Double8(Double8(Wide(b2)))), Double8(Double8(Double8(Wide(b3)))))
  {
    hide Add, Wide, Double8, Push;
    var x0, x1, x2, x3 := Wide(b0), Wide(b1), Wide(b2), Wide(b3);
    PushDoubles(b2, x3);
    PushDoubles(b1, Push(b2, x3));
    PushDoubles(b0, Push(b1, Push(b2, x3)));
    Double8IsLinear(x2, Double8(x3));
    Double8IsLinear(x1, Add(Double8(x2), Double8(Double8(x3))));
    Double8IsLinear(Double8(x2), Double8(Double8(x3)));
    var y1, y2, y3 := Double8(x1), Double8(Double8(x2)), Double8(Double8(Double8(x3)));
    AddAssociates(y1, y2, y3);
    AddAssociates(x0, Add(y1, y2), y3);
    AddAssociates(x0, y1, y2);
  }

  // -------------------------------------------------------------- words and bytes

  function LowByte(w: bv32): Byte {
    (w & 0xff) as bv8
  }

  function Rest(w: bv32): bv32 {
    w >> 8
  }

  /** The little-endian bytes of a word. */
  function WordBytes(w: bv32): (b: seq<Byte>)
    ensures |b| == 4
  {
    [LowByte(w), LowByte(Rest(w)), LowByte(Rest(Rest(w))), LowByte(Rest(Rest(Rest(w))))]
  }

  function FromBytes(b: seq<Byte>): bv32
    requires |b| == 4
  {
    Word(b[0], b[1], b[2], b[3])
  }

  lemma PushLow(b: Byte, w: bv32)
    ensures LowByte(Push(b, w)) == b
  {
  }

  lemma PushHigh(b: Byte, w: bv32)
    requires Clear(w, 0xff00_0000)
    ensures Rest(Push(b, w)) == w
  {
  }

  lemma PushBack(w: bv32)
    ensures Push(LowByte(w), Rest(w)) == w
  {
  }

  lemma PushClears(b: Byte, w: bv32)
    ensures Clear(w, 0xffff_0000) ==> Clear(Push(b, w), 0xff00_0000)
    ensures Clear(w, 0xffff_ff00) ==> Clear(Push(b, w), 0xffff_0000) && Clear(w, 0xff00_0000)
    ensures Clear(w, 0xffff_0000) ==> Clear(w, 0xff00_0000)
  {
  }

  lemma TopByte(w: bv32)
    ensures Wide(LowByte(Rest(Rest(Rest(w))))) == Rest(Rest(Rest(w)))
  {
  }

  lemma WideLow(b: Byte)
    ensures LowByte(Wide(b)) == b && Clear(Wide(b), 0xffff_ff00)
  {
  }

  lemma WordRoundTrip(w: bv32)
    ensures FromBytes(WordBytes(w)) == w
  {
    hide Push, LowByte, Wide, Rest;
    TopByte(w);
    PushBack(w);
    PushBack(Rest(w));
    PushBack(Rest(Rest(w)));
  }

  lemma BytesRoundTrip(b: seq<Byte>)
    requires |b| == 4
    ensures WordBytes(FromBytes(b)) == b
  {
    hide Push, LowByte, Wide, Clear, Rest;
    var w3 := Wide(b[3]);
    var w2 := Push(b[2], w3);
    var w1 := Push(b[1], w2);
    WideLow(b[3]);
    PushClears(b[2], w3);
    PushClears(b[1], w2);
    PushLow(b[0], w1);
    PushHigh(b[0], w1);
    PushLow(b[1], w2);
    PushHigh(b[1], w2);
    PushLow(b[2], w3);
    PushHigh(b[2], w3);
  }

  // --------------------------------------------------------------- what it detects

  /** Payload followed by its checksum. */
  predicate Sealed(blob: seq<Byte>) {
    |blob| >= 4 && FromBytes(blob[|blob| - 4..]) == Crc32(blob[..|blob| - 4])
  }

  /** The register any sealed blob leaves behind. */
  function Residue(): bv32 {
    BitSteps(ALL_ONES, 32)
  }

  lemma ComplementSum(c: bv32)
    ensures Add(c, Complement(c)) == ALL_ONES
  {
  }

  lemma AddRecovers(c: bv32, x: bv32, y: bv32)
    requires Add(c, x) == Add(c, y)
    ensures x == y
  {
  }

  lemma WordSteps(c: bv32, x: seq<Byte>)
    requires |x| == 4
    ensures Register(c, x) == BitSteps(Add(c, FromBytes(x)), 32)
  {
    hide BitSteps, Register, Word, Add;
    assert x == [x[0], x[1], x[2], x[3]];
    FourBytes(c, x[0], x[1], x[2], x[3]);
  }

  lemma SplitTail(blob: seq<Byte>)
    requires |blob| >= 4
    ensures Register(ALL_ONES, blob)
         == BitSteps(Add(Register(ALL_ONES, blob[..|blob| - 4]), FromBytes(blob[|blob| - 4..])), 32)
  {
    hide BitSteps, Register, FromBytes, Add;
    var payload, tail := blob[..|blob| - 4], blob[|blob| - 4..];
    assert blob == payload + tail;
    RegisterSplits(ALL_ONES, payload, tail);
    WordSteps(Register(ALL_ONES, payload), tail);
  }

  /** A blob is sealed exactly when the register over all of it is the residue. */
  lemma SealedIffResidue(blob: seq<Byte>)
    requires |blob| >= 4
    ensures Sealed(blob) <==> Register(ALL_ONES, blob) == Residue()
  {
    hide BitSteps, BitsBack, Register, FromBytes, Add, Complement;
    SplitTail(blob);
    var c, w := Register(ALL_ONES, blob[..|blob| - 4]), FromBytes(blob[|blob| - 4..]);
    ComplementSum(c);
    if Register(ALL_ONES, blob) == Residue() {
      BitStepsInverse(Add(c, w), 32);
      BitStepsInverse(ALL_ONES, 32);
      AddRecovers(c, w, Complement(c));
    }
  }

  /** `a` and `b` agree outside the four bytes from `at`. */
  predicate DifferWithinWord(a: seq<Byte>, b: seq<Byte>, at: nat) {
    && |a| == |b| && at + 4 <= |a|
    && a[..at] == b[..at] && a[at + 4..] == b[at + 4..]
  }

  lemma FourBytesInjective(c: bv32, x: seq<Byte>, y: seq<Byte>)
    requires |x| == |y| == 4 && Register(c, x) == Register(c, y)
    ensures x == y
  {
    hide BitSteps, BitsBack, Register, FromBytes, WordBytes, Add;
    WordSteps(c, x);
    WordSteps(c, y);
    BitStepsInverse(Add(c, FromBytes(x)), 32);
    BitStepsInverse(Add(c, FromBytes(y)), 32);
    AddRecovers(c, FromBytes(x), FromBytes(y));
    BytesRoundTrip(x);
    BytesRoundTrip(y);
  }

  lemma RegisterAround(c: bv32, blob: seq<Byte>, at: nat)
    requires at + 4 <= |blob|
    ensures Register(c, blob)
         == Register(Register(Register(c, blob[..at]), blob[at..at + 4]), blob[at + 4..])
  {
    hide Register;
    assert blob == blob[..at + 4] + blob[at + 4..] && blob[..at + 4] == blob[..at] + blob[at..at + 4];
    RegisterSplits(c, blob[..at + 4], blob[at + 4..]);
    RegisterSplits(c, blob[..at], blob[at..at + 4]);
  }

  /**
   Burst detection, for any length: two different sealed blobs never agree outside four
   consecutive bytes, wherever those bytes lie.
   */
  lemma BurstIsDetected(a: seq<Byte>, b: seq<Byte>, at: nat)
    requires Sealed(a) && DifferWithinWord(a, b, at) && a != b
    ensures !Sealed(b)
  {
    hide BitSteps, Register, Sealed;
    SealedIffResidue(a);
    SealedIffResidue(b);
    RegisterAround(ALL_ONES, a, at);
    RegisterAround(ALL_ONES, b, at);
    var c, x, y := Register(ALL_ONES, a[..at]), a[at..at + 4], b[at..at + 4];
    assert a == a[..at] + x + a[at + 4..] && b == b[..at] + y + b[at + 4..];
    if Sealed(b) {
      RegisterInjective(Register(c, x), Register(c, y), a[at + 4..]);
      FourBytesInjective(c, x, y);
    }
  }

  /** Two equally long blobs that differ in one byte alone agree outside some word. */
  lemma SingleByteIsBurst(a: seq<Byte>, b: seq<Byte>, i: nat) returns (at: nat)
    requires |a| == |b| >= 4 && i < |a| && (forall k :: 0 <= k < |a| && k != i ==> a[k] == b[k])
    ensures DifferWithinWord(a, b, at)
  {
    at := if i + 4 <= |a| then i else |a| - 4;
  }

  // --------------------------------------------------------------- which checksum

  lemma EightBits(c: bv32, b: Byte)
    ensures ByteStep(c, b) == BitStep(BitStep(BitStep(BitStep(BitStep(BitStep(BitStep(BitStep(c ^ (b as bv32)))))))))
  {
    BitStepsCompose(Add(c, Wide(b)), 4, 4);
    FourBits(Add(c, Wide(b)));
    FourBits(BitSteps(Add(c, Wide(b)), 4));
  }

  lemma FourBits(x: bv32)
    ensures BitSteps(x, 4) == BitStep(BitStep(BitStep(BitStep(x))))
  {
    hide BitStep;
    var n: nat := 0;
    assert BitSteps(x, n) == x && BitSteps(x, n + 1) == BitStep(x);
    assert BitSteps(x, n + 2) == BitStep(BitSteps(x, n + 1));
    assert BitSteps(x, n + 3) == BitStep(BitSteps(x, n + 2));
  }

  lemma DigitsOneToThree(c: bv32)
    requires c == 0xffff_ffff
    ensures ByteStep(ByteStep(ByteStep(c, 0x31), 0x32), 0x33) == 0x77b7_9c2d
  {
    EightBits(0xffff_ffff, 0x31);
    EightBits(0x7c23_1048, 0x32);
    EightBits(0xb0ac_bb32, 0x33);
    assert ByteStep(0xffff_ffff, 0x31) == 0x7c23_1048;
    assert ByteStep(0x7c23_1048, 0x32) == 0xb0ac_bb32;
    assert ByteStep(0xb0ac_bb32, 0x33) == 0x77b7_9c2d;
  }

  lemma DigitsFourToSix(c: bv32)
    requires c == 0x77b7_9c2d
    ensures ByteStep(ByteStep(ByteStep(c, 0x34), 0x35), 0x36) == 0xf68d_2c9e
  {
    EightBits(0x77b7_9c2d, 0x34);
    EightBits(0x641c_1f5c, 0x35);
    EightBits(0x340a_c5e3, 0x36);
    assert ByteStep(0x77b7_9c2d, 0x34) == 0x641c_1f5c;
    assert ByteStep(0x641c_1f5c, 0x35) == 0x340a_c5e3;
    assert ByteStep(0x340a_c5e3, 0x36) == 0xf68d_2c9e;
  }

  lemma DigitsSevenToNine(c: bv32)
    requires c == 0xf68d_2c9e
    ensures ByteStep(ByteStep(ByteStep(c, 0x37), 0x38), 0x39) == 0x340b_c6d9
  {
    EightBits(0xf68d_2c9e, 0x37);
    EightBits(0xaffc_9660, 0x38);
    EightBits(0x651f_2550, 0x39);
    assert ByteStep(0xf68d_2c9e, 0x37) == 0xaffc_9660;
    assert ByteStep(0xaffc_9660, 0x38) == 0x651f_2550;
    assert ByteStep(0x651f_2550, 0x39) == 0x340b_c6d9;
  }

  /** The published check value of this checksum, over the digits one to nine. */
  lemma CheckValue()
    ensures Crc32([0x31, 0x32, 0x33, 0x34, 0x35, 0x36, 0x37, 0x38, 0x39]) == 0xcbf4_3926
  {
    hide ByteStep, Register;
    var d: seq<Byte> := [0x31, 0x32, 0x33, 0x34, 0x35, 0x36, 0x37, 0x38, 0x39];
    NineBytes(ALL_ONES, d);
    DigitsOneToThree(ALL_ONES);
    DigitsFourToSix(0x77b7_9c2d);
    DigitsSevenToNine(0xf68d_2c9e);
  }

  lemma NineBytes(c: bv32, d: seq<Byte>)
    requires |d| == 9
    ensures Register(c, d) == ByteStep(ByteStep(ByteStep(ByteStep(ByteStep(ByteStep(ByteStep(ByteStep(ByteStep(
      c, d[0]), d[1]), d[2]), d[3]), d[4]), d[5]), d[6]), d[7]), d[8])
  {
    hide ByteStep, Register;
    assert d[..9] == d;
    Start(c, d);
    Grows(c, d, 0);
    Grows(c, d, 1);
    Grows(c, d, 2);
    Grows(c, d, 3);
    Grows(c, d, 4);
    Grows(c, d, 5);
    Grows(c, d, 6);
    Grows(c, d, 7);
    Grows(c, d, 8);
  }

  lemma Start(c: bv32, d: seq<Byte>)
    ensures Register(c, d[..0]) == c
  {
  }

  lemma Grows(c: bv32, d: seq<Byte>, k: nat)
    requires k < |d|
    ensures Register(c, d[..k + 1]) == ByteStep(Register(c, d[..k]), d[k])
  {
    hide ByteStep;
    assert d[..k + 1][..k] == d[..k];
  }
}
