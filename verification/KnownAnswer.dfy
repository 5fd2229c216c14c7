/** The cipher in numbers: what the script computes for one block, round by round. */
module KnownAnswer {
  import opened Base
  import opened Tea
  import opened Upf
  import PyInt

  // ---------------------------------------------------------------- the sums

  /** The sum of decryption round j, counted from 0. */
  function SumOf(j: nat): Word {
    (0xC6ED_3720 - j * 0x9E37_69B9) % 0x1_0000_0000
  }

  /** n rounds of decryption, round j with its sum in numbers. */
  function RoundsInNumbers(p: Pair, key: Key, n: nat): Pair {
    if n == 0 then p else DecryptRound(RoundsInNumbers(p, key, n - 1), SumOf(n - 1), key)
  }

  lemma NextSum(j: nat)
    ensures SumOf(j + 1) == Sub(SumOf(j), DELTA)
  {
    var x := 0xC6ED_3720 - j * 0x9E37_69B9;
    assert 0xC6ED_3720 - (j + 1) * 0x9E37_69B9 == x - DELTA;
    SubWraps(x);
  }

  lemma SubWraps(x: int)
    ensures (x - DELTA) % 0x1_0000_0000 == (x % 0x1_0000_0000 - DELTA) % 0x1_0000_0000
  {
  }

  lemma {:induction false} RoundsFromSum(p: Pair, key: Key, j: nat, n: nat)
    ensures DecryptRounds(RoundsInNumbers(p, key, j), SumOf(j), key, n) == RoundsInNumbers(p, key, j + n)
    decreases n
  {
    hide SumOf, DecryptRound, RoundsInNumbers, Sub;
    DecryptRoundsUnfold(RoundsInNumbers(p, key, j), SumOf(j), key, n);
    if n > 0 {
      NextSum(j);
      RoundUnfolds(p, key, j);
      RoundsFromSum(p, key, j + 1, n - 1);
    }
  }

  lemma RoundUnfolds(p: Pair, key: Key, j: nat)
    ensures RoundsInNumbers(p, key, j + 1) == DecryptRound(RoundsInNumbers(p, key, j), SumOf(j), key)
  {
  }

  lemma SumsAtTheEnds()
    ensures SumOf(0) == 0xC6ED_3720 == Wrap(DELTA * 32) && SumOf(31) == 0x9E37_69B9
  {
  }

  /** A block is decrypted in 32 rounds.  The first works with 0xC6ED3720, round j with that less j times
      0x9E3769B9, and the last with 0x9E3769B9. */
  lemma SumsInNumbers(p: Pair, key: Key)
    ensures DecryptBlock(p, key) == RoundsInNumbers(p, key, 32)
    ensures SumOf(0) == 0xC6ED_3720 && SumOf(31) == 0x9E37_69B9
  {
    SumsAtTheEnds();
    assert RoundsInNumbers(p, key, 0) == p;
    assert DecryptBlock(p, key) == DecryptRounds(p, Wrap(DELTA * 32), key, 32);
    hide *;
    RoundsFromSum(p, key, 0, 32);
  }

  // ---------------------------------------------------------------- one round

  function XorBit(a: nat, b: nat): nat {
    if a % 2 == b % 2 then 0 else 1
  }

  function XorNibble(a: nat, b: nat): nat {
    XorBit(a, b) + 2 * XorBit(a / 2, b / 2) + 4 * XorBit(a / 4, b / 4) + 8 * XorBit(a / 8, b / 8)
  }

  lemma XorByNibble(a: nat, b: nat)
    ensures PyInt.Xor(a, b) == XorNibble(a, b) + 16 * PyInt.Xor(a / 16, b / 16)
  {
    hide PyInt.Xor;
    PyInt.XorStep(a, b);
    PyInt.XorStep(a / 2, b / 2);
    PyInt.XorStep(a / 4, b / 4);
    PyInt.XorStep(a / 8, b / 8);
    assert a / 2 / 2 == a / 4 && b / 2 / 2 == b / 4;
    assert a / 4 / 2 == a / 8 && b / 4 / 2 == b / 8;
    assert a / 8 / 2 == a / 16 && b / 8 / 2 == b / 16;
  }

  lemma {:induction false} XorNothing(a: nat)
    ensures PyInt.Xor(a, 0) == PyInt.Xor(0, a) == a
  {
    if a > 0 { XorNothing(a / 2); }
  }

  /** An exclusive or digit by digit. */
  lemma XorDigit(a: nat, b: nat, c: nat)
    requires PyInt.Xor(a / 16, b / 16) == c / 16 && XorNibble(a % 16, b % 16) == c % 16
    ensures PyInt.Xor(a, b) == c
  {
    hide PyInt.Xor;
    XorByNibble(a, b);
    SameBits(a);
    SameBits(b);
  }

  lemma SameBits(a: nat)
    ensures a % 16 % 2 == a % 2 && a % 16 / 2 % 2 == a / 2 % 2
    ensures a % 16 / 4 % 2 == a / 4 % 2 && a % 16 / 8 % 2 == a / 8 % 2
  {
    BitsOf(a / 16, a % 16);
  }

  lemma BitsOf(q: nat, r: nat)
    requires r < 16
    ensures
      var a := 16 * q + r;
      a % 2 == r % 2 && a / 2 == 8 * q + r / 2 && a / 4 == 4 * q + r / 4 && a / 8 == 2 * q + r / 8
    ensures (8 * q + r / 2) % 2 == r / 2 % 2 && (4 * q + r / 4) % 2 == r / 4 % 2 && (2 * q + r / 8) % 2 == r / 8 % 2
  {
  }

  /** The low digits of a long number and a short one. */
  lemma XorTwoDigits(high: nat, a: nat, b: nat, c: nat)
    requires a < 256 && b < 256 && c < 256
    requires XorNibble(a / 16, b / 16) == c / 16 && XorNibble(a % 16, b % 16) == c % 16
    ensures PyInt.Xor(256 * high + a, b) == PyInt.Xor(b, 256 * high + a) == 256 * high + c
  {
    hide PyInt.Xor, XorNibble;
    XorNothing(high);
    var x := 256 * high + a;
    assert x / 16 == 16 * high + a / 16 && x % 16 == a % 16;
    XorDigit(x / 16, b / 16, 16 * high + c / 16);
    XorDigit(x, b, 256 * high + c);
    XorCommutes(x, b);
  }

  lemma {:induction false} XorCommutes(a: nat, b: nat)
    ensures PyInt.Xor(a, b) == PyInt.Xor(b, a)
    decreases a + b
  {
    if a + b > 0 { XorCommutes(a / 2, b / 2); }
  }

  lemma FirstXor()
    ensures PyInt.Xor(0x78, 0xC6ED_3720) == 0xC6ED_3758 && PyInt.Xor(0xC6ED_3758, 0x56) == 0xC6ED_370E
  {
    hide PyInt.Xor;
    XorTwoDigits(0xC6_ED37, 0x20, 0x78, 0x58);
    XorTwoDigits(0xC6_ED37, 0x58, 0x56, 0x0E);
  }

  lemma FirstMix()
    ensures PyMix(0, 0xC6ED_3720, 0x56, 0x78) == 0xC6ED_370E
  {
    hide PyInt.Xor, PyMix;
    FirstXor();
    MixOf(0, 0xC6ED_3720, 0x56, 0x78, 0xC6ED_3758, 0xC6ED_370E);
  }

  lemma SecondXor()
    ensures PyInt.Xor(0xC6ED_387D, 0x1212) == 0xC6ED_2A6F
  {
    hide PyInt.Xor;
    XorTwoDigits(0xC6_ED, 0x38, 0x12, 0x2A);
    XorDigit(0xC6E_D387, 0x121, 0xC6E_D2A6);
    XorDigit(0xC6ED_387D, 0x1212, 0xC6ED_2A6F);
  }

  lemma ThirdXor()
    ensures PyInt.Xor(0x3D, 0xC6ED_3840) == 0xC6ED_387D
  {
    hide PyInt.Xor;
    XorTwoDigits(0xC6_ED38, 0x40, 0x3D, 0x7D);
  }

  /** `PyMix` with its operands given. */
  lemma MixOf(v: Word, s: Word, left: Word, right: Word, x: nat, r: Word)
    requires PyInt.Xor(v / 32 + right, s + v) == x && PyInt.Xor(x, v * 16 + left) == r
    ensures PyMix(v, s, left, right) == r
  {
    hide PyInt.Xor, PyInt.And;
    MaskWraps(r);
  }

  lemma SecondMix()
    ensures PyMix(0x120, 0xC6ED_3720, 0x12, 0x34) == 0xC6ED_2A6F
  {
    hide PyInt.Xor, PyMix;
    SecondXor();
    ThirdXor();
    MixOf(0x120, 0xC6ED_3720, 0x12, 0x34, 0xC6ED_387D, 0xC6ED_2A6F);
  }

  /** The first round of a block in numbers: the words are shifted right by five and left by four bits, the second
      word is changed first, and the four key words go to their places. */
  lemma FirstRoundInNumbers()
    ensures
      var key := Key(0x12, 0x34, 0x56, 0x78);
      RoundsInNumbers(Pair(0, 0xC6ED_382E), key, 1) == Pair(0x3912_D591, 0x120)
  {
    var key := Key(0x12, 0x34, 0x56, 0x78);
    var p := Pair(0, 0xC6ED_382E);
    assert RoundsInNumbers(p, key, 0) == p;
    hide PyMix, Mix, SumOf, RoundsInNumbers, DecryptRound, Wrap;
    RoundUnfolds(p, key, 0);
    SumsAtTheEnds();
    FirstMix();
    SecondMix();
    LateMaskIsFixedWidth(0, 0xC6ED_3720, 0x56, 0x78);
    LateMaskIsFixedWidth(0x120, 0xC6ED_3720, 0x12, 0x34);
    Differences();
    RoundMeans(p, 0xC6ED_3720, key, 0x3912_D591, 0x120);
  }

  lemma Differences()
    ensures Wrap(0xC6ED_382E - 0xC6ED_370E) == 0x120 && Wrap(0 - 0xC6ED_2A6F) == 0x3912_D591
  {
  }

  // ---------------------------------------------------------------- bytes

  /** The number that four bytes write, the high digit first. */
  function BigEndian(b0: Byte, b1: Byte, b2: Byte, b3: Byte): Word {
    ((b0 * 256 + b1) * 256 + b2) * 256 + b3
  }

  /** A block of eight bytes is two words, the high digit of the first word first, before and after. */
  lemma BlockInBytes(b: Bytes, key: Key)
    requires |b| == 8
    ensures
      var r := Decrypted(b, key);
      |r| == 8 &&
      Pair(BigEndian(r[0], r[1], r[2], r[3]), BigEndian(r[4], r[5], r[6], r[7])) ==
        DecryptBlock(Pair(BigEndian(b[0], b[1], b[2], b[3]), BigEndian(b[4], b[5], b[6], b[7])), key)
  {
    var r := DecryptBytes(b, key);
    var out := DecryptBlock(BlockOf(b), key);
    assert Decrypted(b, key) == r by {
      assert b[..8] == b && b[8..] == [];
      hide DecryptBytes;
    }
    hide Decrypted, DecryptBlock;
    BlockRoundTrip(b, out);
    InBytes(b);
    InBytes(r);
    hide BlockOf, BytesOf, BigEndian;
  }

  lemma InBytes(b: Bytes)
    requires |b| == 8
    ensures BlockOf(b) == Pair(BigEndian(b[0], b[1], b[2], b[3]), BigEndian(b[4], b[5], b[6], b[7]))
  {
  }
}
