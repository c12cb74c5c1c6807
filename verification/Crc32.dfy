/**
  CRC-32 as the archive writer and the archive reader compute it
  (apps/web/src/store/exportNotes.ts): by a table, a byte at a time. The definition
  it is held to is the bit-serial one, the reflected polynomial 0xEDB88320 over a
  register that starts as all ones and is complemented at the end (section 4.4.7 of
  PKWARE's APPNOTE).
 */
module Crc32 {
  newtype Byte = n: int | 0 <= n < 256

  const POLYNOMIAL: bv32 := 0xedb88320
  const ALL_ONES: bv32 := 0xffffffff

  /** One round: the bit that leaves decides whether the polynomial is taken away. */
  function Shifted(value: bv32): bv32 {
    if value & 1 == 1 then POLYNOMIAL ^ (value >> 1) else value >> 1
  }

  function Iterate<T>(f: T -> T, value: T, n: nat): T {
    if n == 0 then value else f(Iterate(f, value, n - 1))
  }

  function Rounds(value: bv32): bv32 {
    Iterate(Shifted, value, 8)
  }

  function Xor(a: bv32, b: bv32): bv32 {
    a ^ b
  }

  /** A byte's bits, from the lowest. */
  datatype Bits = Bits(b0: bool, b1: bool, b2: bool, b3: bool, b4: bool, b5: bool, b6: bool, b7: bool)

  /** What is left of a number once its bit of this weight is taken off. */
  function Below(n: nat, weight: nat): nat {
    if n >= weight then n - weight else n
  }

  function BitsOf(n: nat): Bits {
    var n7 := Below(n, 128);
    var n6 := Below(n7, 64);
    var n5 := Below(n6, 32);
    var n4 := Below(n5, 16);
    var n3 := Below(n4, 8);
    var n2 := Below(n3, 4);
    Bits(Below(n2, 2) >= 1, n2 >= 2, n3 >= 4, n4 >= 8, n5 >= 16, n6 >= 32, n7 >= 64, n >= 128)
  }

  /** A number with one bit more, above all it has. */
  function WithBit(rest: nat, bit: bool, weight: nat): (n: nat)
    requires rest < weight
    ensures n < 2 * weight
  {
    if bit then rest + weight else rest
  }

  function Number(b: Bits): (n: nat)
    ensures n < 256
  {
    hide WithBit;
    var n3 := WithBit(WithBit(WithBit(0, b.b0, 1), b.b1, 2), b.b2, 4);
    var n6 := WithBit(WithBit(WithBit(n3, b.b3, 8), b.b4, 16), b.b5, 32);
    WithBit(WithBit(n6, b.b6, 64), b.b7, 128)
  }

  function Word(b: Bits): bv32 {
    (if b.b0 then 1 else 0) | (if b.b1 then 2 else 0) | (if b.b2 then 4 else 0) | (if b.b3 then 8 else 0)
    | (if b.b4 then 16 else 0) | (if b.b5 then 32 else 0) | (if b.b6 then 64 else 0) | (if b.b7 then 128 else 0)
  }

  function LowBits(register: bv32): Bits {
    Bits(register & 1 != 0, register & 2 != 0, register & 4 != 0, register & 8 != 0,
         register & 16 != 0, register & 32 != 0, register & 64 != 0, register & 128 != 0)
  }

  /** A byte, or an index of the table, as the low end of a register. */
  function Widened(n: nat): bv32
    requires n < 256
  {
    Word(BitsOf(n))
  }

  /** `& 0xff`, as an index. */
  function LowByte(register: bv32): (low: nat)
    ensures low < 256
  {
    Number(LowBits(register))
  }

  lemma PutBack(n: nat, weight: nat)
    requires n < 2 * weight
    ensures Below(n, weight) < weight && WithBit(Below(n, weight), n >= weight, weight) == n
  {}

  lemma NumberOfBits(n: nat)
    requires n < 256
    ensures Number(BitsOf(n)) == n
  {
    hide Below, WithBit;
    var n7 := Below(n, 128);
    PutBack(n, 128);
    var n6 := Below(n7, 64);
    PutBack(n7, 64);
    var n5 := Below(n6, 32);
    PutBack(n6, 32);
    var n4 := Below(n5, 16);
    PutBack(n5, 16);
    var n3 := Below(n4, 8);
    PutBack(n4, 8);
    var n2 := Below(n3, 4);
    PutBack(n3, 4);
    PutBack(n2, 2);
    PutBack(Below(n2, 2), 1);
  }

  /** The highest bit of a number is read off it, and what is left is what the others come to. */
  lemma TopBit(rest: nat, bit: bool, weight: nat)
    requires rest < weight
    ensures Below(WithBit(rest, bit, weight), weight) == rest
    ensures WithBit(rest, bit, weight) >= weight <==> bit
  {}

  lemma BitsOfNumber(b: Bits)
    ensures BitsOf(Number(b)) == b
  {
    hide Below, WithBit;
    var n1 := WithBit(0, b.b0, 1);
    var n2 := WithBit(n1, b.b1, 2);
    var n3 := WithBit(n2, b.b2, 4);
    var n4 := WithBit(n3, b.b3, 8);
    var n5 := WithBit(n4, b.b4, 16);
    var n6 := WithBit(n5, b.b5, 32);
    var n7 := WithBit(n6, b.b6, 64);
    TopBit(0, b.b0, 1);
    TopBit(n1, b.b1, 2);
    TopBit(n2, b.b2, 4);
    TopBit(n3, b.b3, 8);
    TopBit(n4, b.b4, 16);
    TopBit(n5, b.b5, 32);
    TopBit(n6, b.b6, 64);
    TopBit(n7, b.b7, 128);
  }

  lemma WordOfLowBits(register: bv32)
    ensures Word(LowBits(register)) == register & 0xff
  {}

  /** A bit as a register: all but one of it nothing. */
  function Lone(bit: bool, weight: bv32): bv32 {
    if bit then weight else 0
  }

  lemma LowBitsOfWord(b: Bits)
    ensures LowBits(Word(b)) == b
    ensures Word(b) >> 8 == 0
  {
    var w0, w1, w2, w3 := Lone(b.b0, 1), Lone(b.b1, 2), Lone(b.b2, 4), Lone(b.b3, 8);
    var w4, w5, w6, w7 := Lone(b.b4, 16), Lone(b.b5, 32), Lone(b.b6, 64), Lone(b.b7, 128);
    assert Word(b) == w0 | w1 | w2 | w3 | w4 | w5 | w6 | w7;
    hide Word;
    LoneBits(w0, w1, w2, w3, w4, w5, w6, w7);
  }

  /** Each bit of the whole is the bit it was put together from. */
  lemma LoneBits(w0: bv32, w1: bv32, w2: bv32, w3: bv32, w4: bv32, w5: bv32, w6: bv32, w7: bv32)
    requires w0 & 1 == w0 && w1 & 2 == w1 && w2 & 4 == w2 && w3 & 8 == w3
    requires w4 & 16 == w4 && w5 & 32 == w5 && w6 & 64 == w6 && w7 & 128 == w7
    ensures var word := w0 | w1 | w2 | w3 | w4 | w5 | w6 | w7;
            && word & 1 == w0 && word & 2 == w1 && word & 4 == w2 && word & 8 == w3
            && word & 16 == w4 && word & 32 == w5 && word & 64 == w6 && word & 128 == w7
            && word >> 8 == 0
  {}

  /** Eight rounds of every index. */
  function CrcTable(): (table: seq<bv32>)
    ensures |table| == 256
    ensures forall i :: 0 <= i < 256 ==> table[i] == Rounds(Widened(i))
  {
    seq(256, i requires 0 <= i < 256 => Rounds(Widened(i)))
  }

  /** One byte of the reduce: the register's low end and the byte, looked up. */
  function TableStep(register: bv32, byte: Byte): bv32 {
    CrcTable()[LowByte(register ^ Widened(byte as nat))] ^ (register >> 8)
  }

  function Feed(register: bv32, bytes: seq<Byte>): bv32
    decreases |bytes|
  {
    if bytes == [] then register
    else Feed(TableStep(register, bytes[0]), bytes[1..])
  }

  function Crc(bytes: seq<Byte>): bv32 {
    Feed(ALL_ONES, bytes) ^ ALL_ONES
  }

  /** The definition: a byte is added to the register's low end, and eight rounds run. */
  function SerialStep(register: bv32, byte: Byte): bv32 {
    Rounds(register ^ Widened(byte as nat))
  }

  function SerialFeed(register: bv32, bytes: seq<Byte>): bv32
    decreases |bytes|
  {
    if bytes == [] then register else SerialFeed(SerialStep(register, bytes[0]), bytes[1..])
  }

  // ----- Linearity ---------------------------------------------------------------------

  lemma ShiftOfXor(a: bv32, b: bv32)
    ensures (a ^ b) >> 1 == (a >> 1) ^ (b >> 1)
    ensures (a ^ b) & 1 == (a & 1) ^ (b & 1)
  {}

  lemma LowBit(a: bv32)
    ensures a & 1 == 0 || a & 1 == 1
  {}

  lemma XorRearranged(p: bv32, x: bv32, y: bv32)
    ensures (p ^ x) ^ (p ^ y) == x ^ y
    ensures (p ^ x) ^ y == p ^ (x ^ y)
    ensures x ^ (p ^ y) == p ^ (x ^ y)
  {}

  lemma ShiftedIsLinear(a: bv32, b: bv32)
    ensures Shifted(a ^ b) == Shifted(a) ^ Shifted(b)
  {
    ShiftOfXor(a, b);
    LowBit(a);
    LowBit(b);
    XorRearranged(POLYNOMIAL, a >> 1, b >> 1);
  }

  ghost predicate Linear<T(!new)>(f: T -> T, plus: (T, T) -> T) {
    forall a, b :: f(plus(a, b)) == plus(f(a), f(b))
  }

  lemma {:induction false} IterateIsLinear<T(!new)>(f: T -> T, plus: (T, T) -> T, a: T, b: T, n: nat)
    requires Linear(f, plus)
    ensures Iterate(f, plus(a, b), n) == plus(Iterate(f, a, n), Iterate(f, b, n))
  {
    if n > 0 {
      IterateIsLinear(f, plus, a, b, n - 1);
    }
  }

  lemma ShiftedLinear()
    ensures Linear(Shifted, Xor)
  {
    forall a, b
      ensures Shifted(Xor(a, b)) == Xor(Shifted(a), Shifted(b))
    {
      ShiftedIsLinear(a, b);
    }
  }

  lemma RoundsAreLinear(a: bv32, b: bv32)
    ensures Rounds(Xor(a, b)) == Xor(Rounds(a), Rounds(b))
  {
    ShiftedLinear();
    IterateIsLinear(Shifted, Xor, a, b, 8);
  }

  lemma EightSteps<T>(f: T -> T, a: T, b: T, c: T, d: T, e: T, g: T, h: T, i: T, j: T)
    requires f(a) == b && f(b) == c && f(c) == d && f(d) == e
    requires f(e) == g && f(g) == h && f(h) == i && f(i) == j
    ensures Iterate(f, a, 8) == j
  {
    assert Iterate(f, a, 2) == f(Iterate(f, a, 1)) == c;
    assert Iterate(f, a, 4) == f(Iterate(f, a, 3)) == e;
    assert Iterate(f, a, 6) == f(Iterate(f, a, 5)) == h;
  }

  lemma RoundsUnfolded(v: bv32)
    ensures Rounds(v) == Shifted(Shifted(Shifted(Shifted(Shifted(Shifted(Shifted(Shifted(v))))))))
  {
    var b, c := Shifted(v), Shifted(Shifted(v));
    var d, e := Shifted(c), Shifted(Shifted(c));
    var g, h := Shifted(e), Shifted(Shifted(e));
    EightSteps(Shifted, v, b, c, d, e, g, h, Shifted(h), Shifted(Shifted(h)));
  }

  lemma HighPartMovesDown(v: bv32)
    ensures Shifted(Shifted(Shifted(Shifted(Shifted(Shifted(Shifted(Shifted(v & 0xffffff00)))))))) == v >> 8
  {}

  /** What is above the low eight bits only moves down. */
  lemma RoundsOfHighPart(v: bv32)
    ensures Rounds(v & 0xffffff00) == v >> 8
  {
    RoundsUnfolded(v & 0xffffff00);
    HighPartMovesDown(v);
  }

  lemma HighAndLow(v: bv32)
    ensures (v & 0xff) ^ (v & 0xffffff00) == v
  {}

  lemma ByteIsLow(register: bv32, byte: Byte)
    ensures (register ^ Widened(byte as nat)) >> 8 == register >> 8
  {
    LowBitsOfWord(BitsOf(byte as nat));
    NothingHigh(register, Widened(byte as nat));
  }

  lemma NothingHigh(register: bv32, low: bv32)
    requires low >> 8 == 0
    ensures (register ^ low) >> 8 == register >> 8
  {}

  lemma TableLookup(v: bv32)
    ensures CrcTable()[LowByte(v)] == Rounds(v & 0xff)
  {
    hide Word, BitsOf, LowBits, Number, Rounds;
    BitsOfNumber(LowBits(v));
    WordOfLowBits(v);
  }

  lemma RoundsByParts(v: bv32)
    ensures Rounds(v) == Xor(Rounds(v & 0xff), v >> 8)
  {
    RoundsOfHighPart(v);
    RoundsAreLinear(v & 0xff, v & 0xffffff00);
    HighAndLow(v);
  }

  lemma TableStepIsSerial(register: bv32, byte: Byte)
    ensures TableStep(register, byte) == SerialStep(register, byte)
  {
    hide Widened, Rounds, LowByte;
    var v := register ^ Widened(byte as nat);
    TableLookup(v);
    RoundsByParts(v);
    ByteIsLow(register, byte);
  }

  /** The table computes the definition, from any register over any bytes. */
  lemma {:induction false} TableIsSerial(register: bv32, bytes: seq<Byte>)
    ensures Feed(register, bytes) == SerialFeed(register, bytes)
    decreases |bytes|
  {
    if bytes != [] {
      TableStepIsSerial(register, bytes[0]);
      TableIsSerial(SerialStep(register, bytes[0]), bytes[1..]);
    }
  }

  lemma CrcIsSerial(bytes: seq<Byte>)
    ensures Crc(bytes) == SerialFeed(ALL_ONES, bytes) ^ ALL_ONES
  {
    TableIsSerial(ALL_ONES, bytes);
  }

  // ----- What a checksum tells apart ---------------------------------------------------

  lemma ShiftedHighBit(v: bv32)
    ensures Shifted(v) >> 31 == v & 1
    ensures v & 1 == 1 ==> POLYNOMIAL ^ Shifted(v) == v >> 1
    ensures v & 1 == 0 ==> Shifted(v) == v >> 1
  {
    LowBit(v);
  }

  lemma HalvesAndBit(a: bv32, b: bv32)
    ensures a >> 1 == b >> 1 && a & 1 == b & 1 ==> a == b
  {}

  lemma ShiftedInjective(a: bv32, b: bv32)
    ensures Shifted(a) == Shifted(b) ==> a == b
  {
    ShiftedHighBit(a);
    ShiftedHighBit(b);
    LowBit(a);
    HalvesAndBit(a, b);
  }

  ghost predicate Injective<T(!new)>(f: T -> T) {
    forall a, b :: f(a) == f(b) ==> a == b
  }

  lemma {:induction false} IterateIsInjective<T(!new)>(f: T -> T, a: T, b: T, n: nat)
    requires Injective(f)
    ensures Iterate(f, a, n) == Iterate(f, b, n) ==> a == b
  {
    if n > 0 {
      IterateIsInjective(f, a, b, n - 1);
    }
  }

  lemma RoundsInjective(a: bv32, b: bv32)
    ensures Rounds(a) == Rounds(b) ==> a == b
  {
    forall a, b
      ensures Shifted(a) == Shifted(b) ==> a == b
    {
      ShiftedInjective(a, b);
    }
    IterateIsInjective(Shifted, a, b, 8);
  }

  lemma XorCancels(a: bv32, b: bv32, c: bv32)
    ensures a ^ c == b ^ c ==> a == b
  {}

  lemma ByteWidens(x: Byte, y: Byte)
    ensures Widened(x as nat) == Widened(y as nat) ==> x == y
  {
    hide Word, BitsOf, LowBits, Number;
    LowBitsOfWord(BitsOf(x as nat));
    LowBitsOfWord(BitsOf(y as nat));
    NumberOfBits(x as nat);
    NumberOfBits(y as nat);
  }

  lemma XorCancelsFront(a: bv32, b: bv32, c: bv32)
    ensures c ^ a == c ^ b ==> a == b
  {}

  lemma StepKeepsApart(a: bv32, b: bv32, byte: Byte)
    requires a != b
    ensures SerialStep(a, byte) != SerialStep(b, byte)
  {
    hide Widened, Rounds;
    XorCancels(a, b, Widened(byte as nat));
    RoundsInjective(a ^ Widened(byte as nat), b ^ Widened(byte as nat));
  }

  /** Two registers that differ stay apart, whatever is fed to both. */
  lemma {:induction false} FeedKeepsApart(a: bv32, b: bv32, bytes: seq<Byte>)
    requires a != b
    ensures SerialFeed(a, bytes) != SerialFeed(b, bytes)
    decreases |bytes|
  {
    if bytes != [] {
      StepKeepsApart(a, b, bytes[0]);
      FeedKeepsApart(SerialStep(a, bytes[0]), SerialStep(b, bytes[0]), bytes[1..]);
    }
  }

  lemma {:induction false} SerialFeedConcat(register: bv32, a: seq<Byte>, b: seq<Byte>)
    ensures SerialFeed(register, a + b) == SerialFeed(SerialFeed(register, a), b)
    decreases |a|
  {
    if a == [] {
      assert a + b == b;
    } else {
      assert (a + b)[1..] == a[1..] + b;
      SerialFeedConcat(SerialStep(register, a[0]), a[1..], b);
    }
  }

  lemma BytesKeepApart(register: bv32, x: Byte, y: Byte)
    requires x != y
    ensures SerialStep(register, x) != SerialStep(register, y)
  {
    hide Widened, Rounds;
    XorCancelsFront(Widened(x as nat), Widened(y as nat), register);
    ByteWidens(x, y);
    RoundsInjective(register ^ Widened(x as nat), register ^ Widened(y as nat));
  }

  lemma ComplementKeepsApart(a: seq<Byte>, b: seq<Byte>)
    requires SerialFeed(ALL_ONES, a) != SerialFeed(ALL_ONES, b)
    ensures Crc(a) != Crc(b)
  {
    CrcIsSerial(a);
    CrcIsSerial(b);
    XorCancels(SerialFeed(ALL_ONES, a), SerialFeed(ALL_ONES, b), ALL_ONES);
  }

  /** A file with one byte changed never has the checksum it had. */
  lemma OneByteChangesCrc(before: seq<Byte>, x: Byte, y: Byte, after: seq<Byte>)
    requires x != y
    ensures Crc(before + [x] + after) != Crc(before + [y] + after)
  {
    var register := SerialFeed(ALL_ONES, before);
    RegisterAfter(before, x, after);
    RegisterAfter(before, y, after);
    BytesKeepApart(register, x, y);
    FeedKeepsApart(SerialStep(register, x), SerialStep(register, y), after);
    ComplementKeepsApart(before + [x] + after, before + [y] + after);
  }

  lemma RegisterAfter(before: seq<Byte>, x: Byte, after: seq<Byte>)
    ensures SerialFeed(ALL_ONES, before + [x] + after)
            == SerialFeed(SerialStep(SerialFeed(ALL_ONES, before), x), after)
  {
    assert before + [x] + after == before + ([x] + after);
    SerialFeedConcat(ALL_ONES, before, [x] + after);
    assert ([x] + after)[1..] == after;
  }

  /** The checksum as the number `>>> 0` makes it. */
  function CrcNumber(bytes: seq<Byte>): (n: nat)
    ensures n < 0x1_0000_0000
  {
    RegisterNumber(Crc(bytes))
  }

  function RegisterNumber(register: bv32): (n: nat)
    ensures n < 0x1_0000_0000
  {
    LowByte(register) + 256 * (LowByte(register >> 8) + 256 * (LowByte(register >> 16) + 256 * LowByte(register >> 24)))
  }

  lemma LowByteTells(a: bv32, b: bv32)
    ensures LowByte(a) == LowByte(b) ==> a & 0xff == b & 0xff
  {
    hide LowBits, Word, BitsOf, Number;
    BitsOfNumber(LowBits(a));
    BitsOfNumber(LowBits(b));
    WordOfLowBits(a);
    WordOfLowBits(b);
  }

  lemma BytesOfRegister(a: bv32, b: bv32)
    requires a & 0xff == b & 0xff && (a >> 8) & 0xff == (b >> 8) & 0xff
    requires (a >> 16) & 0xff == (b >> 16) & 0xff && (a >> 24) & 0xff == (b >> 24) & 0xff
    ensures a == b
  {}

  lemma Base256(a: nat, b: nat, x: nat, y: nat)
    requires a < 256 && b < 256 && a + 256 * x == b + 256 * y
    ensures a == b && x == y
  {}

  lemma FourBytes(a0: nat, a1: nat, a2: nat, a3: nat, b0: nat, b1: nat, b2: nat, b3: nat)
    requires a0 < 256 && a1 < 256 && a2 < 256 && b0 < 256 && b1 < 256 && b2 < 256
    requires a0 + 256 * (a1 + 256 * (a2 + 256 * a3)) == b0 + 256 * (b1 + 256 * (b2 + 256 * b3))
    ensures a0 == b0 && a1 == b1 && a2 == b2 && a3 == b3
  {
    Base256(a0, b0, a1 + 256 * (a2 + 256 * a3), b1 + 256 * (b2 + 256 * b3));
    Base256(a1, b1, a2 + 256 * a3, b2 + 256 * b3);
    Base256(a2, b2, a3, b3);
  }

  lemma BytesTell(a: bv32, b: bv32)
    requires LowByte(a) == LowByte(b) && LowByte(a >> 8) == LowByte(b >> 8)
    requires LowByte(a >> 16) == LowByte(b >> 16) && LowByte(a >> 24) == LowByte(b >> 24)
    ensures a == b
  {
    hide LowByte;
    assert a & 0xff == b & 0xff by { LowByteTells(a, b); }
    assert (a >> 8) & 0xff == (b >> 8) & 0xff by { LowByteTells(a >> 8, b >> 8); }
    assert (a >> 16) & 0xff == (b >> 16) & 0xff by { LowByteTells(a >> 16, b >> 16); }
    assert (a >> 24) & 0xff == (b >> 24) & 0xff by { LowByteTells(a >> 24, b >> 24); }
    BytesOfRegister(a, b);
  }

  lemma RegisterNumberInjective(a: bv32, b: bv32)
    requires RegisterNumber(a) == RegisterNumber(b)
    ensures a == b
  {
    hide LowByte;
    FourBytes(LowByte(a), LowByte(a >> 8), LowByte(a >> 16), LowByte(a >> 24),
              LowByte(b), LowByte(b >> 8), LowByte(b >> 16), LowByte(b >> 24));
    BytesTell(a, b);
  }

  /** A reader that compares checksums refuses a file with one byte changed. */
  lemma OneByteChangesNumber(before: seq<Byte>, x: Byte, y: Byte, after: seq<Byte>)
    requires x != y
    ensures CrcNumber(before + [x] + after) != CrcNumber(before + [y] + after)
  {
    hide RegisterNumber, Crc;
    OneByteChangesCrc(before, x, y, after);
    if CrcNumber(before + [x] + after) == CrcNumber(before + [y] + after) {
      RegisterNumberInjective(Crc(before + [x] + after), Crc(before + [y] + after));
    }
  }

  // ----- The value the definition is known by ------------------------------------------

  lemma OneStep(register: bv32, byte: Byte, word: bv32, next: bv32)
    requires Widened(byte as nat) == word
    requires next == Shifted(Shifted(Shifted(Shifted(Shifted(Shifted(Shifted(Shifted(register ^ word))))))))
    ensures SerialStep(register, byte) == next
  {
    RoundsUnfolded(register ^ word);
  }

  lemma DigitWords()
    ensures Widened(0x31) == 0x31 && Widened(0x32) == 0x32 && Widened(0x33) == 0x33
    ensures Widened(0x34) == 0x34 && Widened(0x35) == 0x35 && Widened(0x36) == 0x36
    ensures Widened(0x37) == 0x37 && Widened(0x38) == 0x38 && Widened(0x39) == 0x39
  {}

  /** The ASCII for `123456789` has the checksum 0xCBF43926. */
  lemma CheckValue()
    ensures Crc([0x31, 0x32, 0x33, 0x34, 0x35, 0x36, 0x37, 0x38, 0x39]) == 0xcbf43926
  {
    var text: seq<Byte> := [0x31, 0x32, 0x33, 0x34, 0x35, 0x36, 0x37, 0x38, 0x39];
    hide Widened, Rounds;
    DigitWords();
    assert text[1..][1..][1..] == text[3..] && text[3..][1..][1..][1..] == text[6..];
    assert text[6..][1..][1..][1..] == [];
    OneStep(0xffffffff, 0x31, 0x31, 0x7c231048);
    OneStep(0x7c231048, 0x32, 0x32, 0xb0acbb32);
    OneStep(0xb0acbb32, 0x33, 0x33, 0x77b79c2d);
    OneStep(0x77b79c2d, 0x34, 0x34, 0x641c1f5c);
    OneStep(0x641c1f5c, 0x35, 0x35, 0x340ac5e3);
    OneStep(0x340ac5e3, 0x36, 0x36, 0xf68d2c9e);
    OneStep(0xf68d2c9e, 0x37, 0x37, 0xaffc9660);
    OneStep(0xaffc9660, 0x38, 0x38, 0x651f2550);
    OneStep(0x651f2550, 0x39, 0x39, 0x340bc6d9);
    assert SerialFeed(0xffffffff, text) == SerialFeed(0x77b79c2d, text[3..]);
    assert SerialFeed(0x77b79c2d, text[3..]) == SerialFeed(0xf68d2c9e, text[6..]);
    assert SerialFeed(0xf68d2c9e, text[6..]) == 0x340bc6d9;
    CrcIsSerial(text);
  }
}
