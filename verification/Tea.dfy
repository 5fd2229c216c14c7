/** The modified TEA of scripts/decrypt_upf.py: the Python text, the fixed-width cipher it refines, and the
    encryptor that undoes it. */
module Tea {
  import opened Base
  import PyInt

  const MODULUS := 0x1_0000_0000
  const MASK32 := 0xFFFF_FFFF
  const DELTA := 0x9E37_69B9
  const ROUNDS: nat := 32

  type Word = x: int | 0 <= x < 0x1_0000_0000

  datatype Key = Key(k0: Word, k1: Word, k2: Word, k3: Word)

  datatype Pair = Pair(v0: Word, v1: Word)

  // ---------------------------------------------------------------- 32-bit arithmetic

  function Wrap(x: int): Word {
    x % MODULUS
  }

  function Add(a: Word, b: Word): Word {
    Wrap(a + b)
  }

  function Sub(a: Word, b: Word): Word {
    Wrap(a - b)
  }

  function ShiftLeft4(a: Word): Word {
    Wrap(a * 16)
  }

  function ShiftRight5(a: Word): Word {
    a / 32
  }

  function Xor(a: Word, b: Word): Word {
    XorFits(a, b);
    PyInt.Xor(a, b)
  }

  lemma XorFits(a: Word, b: Word)
    ensures 0 <= PyInt.Xor(a, b) < MODULUS
  {
    hide PyInt.Xor, Pow2;
    PyInt.XorModulo(a, b, 32);
    PyInt.Pow2Of32();
  }

  // ---------------------------------------------------------------- the cipher

  /** The round function: what one half of a block adds to the other. */
  function Mix(v: Word, s: Word, left: Word, right: Word): Word {
    Xor(Xor(Add(ShiftRight5(v), right), Add(s, v)), Add(ShiftLeft4(v), left))
  }

  function DecryptRound(p: Pair, s: Word, key: Key): Pair {
    var v1 := Sub(p.v1, Mix(p.v0, s, key.k2, key.k3));
    Pair(Sub(p.v0, Mix(v1, s, key.k0, key.k1)), v1)
  }

  function EncryptRound(p: Pair, s: Word, key: Key): Pair {
    var v0 := Add(p.v0, Mix(p.v1, s, key.k0, key.k1));
    Pair(v0, Add(p.v1, Mix(v0, s, key.k2, key.k3)))
  }

  /** `n` rounds of decryption, the sum starting at `s` and falling. */
  function DecryptRounds(p: Pair, s: Word, key: Key, n: nat): Pair
    decreases n
  {
    if n == 0 then p else DecryptRounds(DecryptRound(p, s, key), Sub(s, DELTA), key, n - 1)
  }

  /** `n` rounds of encryption, the sum starting below its first value and rising to `Wrap(s + n * DELTA)`. */
  function EncryptRounds(p: Pair, s: Word, key: Key, n: nat): Pair
    decreases n
  {
    if n == 0 then p else EncryptRounds(EncryptRound(p, Add(s, DELTA), key), Add(s, DELTA), key, n - 1)
  }

  function DecryptBlock(p: Pair, key: Key): Pair {
    DecryptRounds(p, Wrap(DELTA * 32), key, ROUNDS)
  }

  function EncryptBlock(p: Pair, key: Key): Pair {
    EncryptRounds(p, 0, key, ROUNDS)
  }

  lemma RoundsCancel(p: Pair, s: Word, key: Key)
    ensures EncryptRound(DecryptRound(p, s, key), s, key) == p
    ensures DecryptRound(EncryptRound(p, s, key), s, key) == p
  {
    hide Mix, Add, Sub;
    AddSubCancel(p.v0, Mix(p.v1, s, key.k0, key.k1));
    AddSubCancel(p.v1, Mix(p.v0, s, key.k2, key.k3));
    var d := DecryptRound(p, s, key);
    AddSubCancel(p.v0, Mix(d.v1, s, key.k0, key.k1));
    var e := EncryptRound(p, s, key);
    AddSubCancel(p.v1, Mix(e.v0, s, key.k2, key.k3));
  }

  lemma AddSubCancel(x: Word, m: Word)
    ensures Add(Sub(x, m), m) == x
    ensures Sub(Add(x, m), m) == x
  {
  }

  /** The sum after n rounds up from `s`. */
  function Raised(s: Word, n: nat): Word
    decreases n
  {
    if n == 0 then s else Raised(Add(s, DELTA), n - 1)
  }

  lemma {:induction false} RaisedLast(s: Word, n: nat)
    requires n > 0
    ensures Raised(s, n) == Add(Raised(s, n - 1), DELTA)
    decreases n
  {
    if n > 1 {
      RaisedLast(Add(s, DELTA), n - 1);
    }
  }

  lemma {:induction false} EncryptRoundsLast(p: Pair, s: Word, key: Key, n: nat)
    requires n > 0
    ensures EncryptRounds(p, s, key, n) == EncryptRound(EncryptRounds(p, s, key, n - 1), Raised(s, n), key)
    decreases n
  {
    hide EncryptRound;
    if n > 1 {
      EncryptRoundsLast(EncryptRound(p, Add(s, DELTA), key), Add(s, DELTA), key, n - 1);
    }
  }

  lemma RaisedBelow(s: Word, n: nat)
    requires n > 0
    ensures Sub(Raised(s, n), DELTA) == Raised(s, n - 1)
  {
    hide Add, Sub, Raised;
    RaisedLast(s, n);
    AddSubCancel(Raised(s, n - 1), DELTA);
  }

  /** Rounds down undo rounds up, whatever the number of rounds. */
  lemma {:induction false} DecryptUndoesEncrypt(p: Pair, s: Word, key: Key, n: nat)
    ensures DecryptRounds(EncryptRounds(p, s, key, n), Raised(s, n), key, n) == p
    decreases n
  {
    if n > 0 {
      hide EncryptRound, DecryptRound, Raised, Sub, EncryptRounds, DecryptRounds;
      var most := EncryptRounds(p, s, key, n - 1);
      RaisedBelow(s, n);
      EncryptRoundsLast(p, s, key, n);
      RoundsCancel(most, Raised(s, n), key);
      DecryptRoundsUnfold(EncryptRounds(p, s, key, n), Raised(s, n), key, n);
      DecryptUndoesEncrypt(p, s, key, n - 1);
    }
  }

  /** And rounds up undo rounds down. */
  lemma {:induction false} EncryptUndoesDecrypt(p: Pair, s: Word, key: Key, n: nat)
    ensures EncryptRounds(DecryptRounds(p, Raised(s, n), key, n), s, key, n) == p
    decreases n
  {
    if n > 0 {
      hide EncryptRound, DecryptRound, Raised, Sub, EncryptRounds, DecryptRounds;
      var first := DecryptRound(p, Raised(s, n), key);
      RaisedBelow(s, n);
      DecryptRoundsUnfold(p, Raised(s, n), key, n);
      EncryptRoundsLast(DecryptRounds(p, Raised(s, n), key, n), s, key, n);
      EncryptUndoesDecrypt(first, s, key, n - 1);
      RoundsCancel(p, Raised(s, n), key);
    }
  }

  lemma WrapAdd(x: nat, y: nat)
    ensures Wrap(Wrap(x) + y) == Wrap(x + y)
  {
  }

  lemma {:induction false} RaisedBy(s: Word, n: nat)
    ensures Raised(s, n) == Wrap(s + n * DELTA)
    decreases n
  {
    if n > 0 {
      RaisedBy(Add(s, DELTA), n - 1);
      WrapAdd(s + DELTA, (n - 1) * DELTA);
    }
  }

  /** For every key, decryption of a block is a bijection on pairs of words: encryption is its inverse on
      both sides. */
  lemma BlockBijection(p: Pair, key: Key)
    ensures DecryptBlock(EncryptBlock(p, key), key) == p
    ensures EncryptBlock(DecryptBlock(p, key), key) == p
  {
    hide EncryptRounds, DecryptRounds, Raised;
    RaisedBy(0, ROUNDS);
    DecryptUndoesEncrypt(p, 0, key, ROUNDS);
    EncryptUndoesDecrypt(p, 0, key, ROUNDS);
  }

  // ---------------------------------------------------------------- the Python text

  /** Lines 23 and 24 without the subtraction: everything unbounded, masked at the end. */
  function PyMix(v: Word, s: Word, left: Word, right: Word): nat {
    PyInt.And(PyInt.Xor(PyInt.Xor(v / 32 + right, s + v), v * 16 + left), MASK32)
  }

  lemma MaskWraps(x: int)
    ensures PyInt.And(x, MASK32) == Wrap(x)
  {
    hide PyInt.And, Pow2;
    PyInt.Pow2Of32();
    PyInt.MaskIsModulo(x, 32);
  }

  lemma XorWraps(a: nat, b: nat)
    ensures Wrap(PyInt.Xor(a, b)) == Xor(Wrap(a), Wrap(b))
  {
    hide PyInt.Xor, Pow2;
    PyInt.Pow2Of32();
    PyInt.XorModulo(a, b, 32);
  }

  lemma OperandsWrap(v: Word, s: Word, left: Word, right: Word)
    ensures Wrap(v / 32 + right) == Add(ShiftRight5(v), right)
    ensures Wrap(s + v) == Add(s, v)
    ensures Wrap(v * 16 + left) == Add(ShiftLeft4(v), left)
  {
    hide Wrap;
    WrapAdd(v * 16, left);
  }

  /** Masking once after the exclusive ors is the same as computing in 32 bits throughout. */
  lemma LateMaskIsFixedWidth(v: Word, s: Word, left: Word, right: Word)
    ensures PyMix(v, s, left, right) == Mix(v, s, left, right)
  {
    hide PyInt.Xor, PyInt.And, Wrap, Add, Xor;
    var a, b, c := v / 32 + right, s + v, v * 16 + left;
    MaskWraps(PyInt.Xor(PyInt.Xor(a, b), c));
    XorWraps(PyInt.Xor(a, b), c);
    XorWraps(a, b);
    OperandsWrap(v, s, left, right);
  }

  /** `tea_decrypt_block`, with Python's operators, computes the fixed-width cipher. */
  method TeaDecryptBlock(w0: Word, w1: Word, key: Key) returns (v0: Word, v1: Word)
    ensures Pair(v0, v1) == DecryptBlock(Pair(w0, w1), key)
  {
    hide DecryptRounds, DecryptRound, Mix, PyMix, PyInt.And;
    v0, v1 := w0, w1;
    MaskWraps(DELTA * 32);
    var s: Word := PyInt.And(DELTA * 32, MASK32);
    for i := 0 to 32
      invariant DecryptRounds(Pair(v0, v1), s, key, 32 - i) == DecryptBlock(Pair(w0, w1), key)
    {
      ghost var p, t := Pair(v0, v1), s;
      DecryptRoundsUnfold(p, s, key, 32 - i);
      LateMaskIsFixedWidth(v0, s, key.k2, key.k3);
      MaskWraps(v1 - PyMix(v0, s, key.k2, key.k3));
      v1 := PyInt.And(v1 - PyMix(v0, s, key.k2, key.k3), MASK32);
      LateMaskIsFixedWidth(v1, s, key.k0, key.k1);
      MaskWraps(v0 - PyMix(v1, s, key.k0, key.k1));
      v0 := PyInt.And(v0 - PyMix(v1, s, key.k0, key.k1), MASK32);
      MaskWraps(s - DELTA);
      s := PyInt.And(s - DELTA, MASK32);
      RoundMeans(p, t, key, v0, v1);
    }
    DecryptRoundsUnfold(Pair(v0, v1), s, key, 0);
  }

  lemma DecryptRoundsUnfold(p: Pair, s: Word, key: Key, n: nat)
    ensures DecryptRounds(p, s, key, n) ==
      if n == 0 then p else DecryptRounds(DecryptRound(p, s, key), Sub(s, DELTA), key, n - 1)
  {
  }

  lemma RoundMeans(p: Pair, s: Word, key: Key, v0: Word, v1: Word)
    requires v1 == Wrap(p.v1 - Mix(p.v0, s, key.k2, key.k3))
    requires v0 == Wrap(p.v0 - Mix(v1, s, key.k0, key.k1))
    ensures Pair(v0, v1) == DecryptRound(p, s, key)
  {
  }
}
