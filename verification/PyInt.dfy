/** Python's bit operators on unbounded integers, and what masking does to them. */
module PyInt {
  import opened Base

  /** `a ^ b` for operands that are not negative. */
  function Xor(a: nat, b: nat): nat {
    if a == 0 && b == 0 then 0
    else (if a % 2 != b % 2 then 1 else 0) + 2 * Xor(a / 2, b / 2)
  }

  /** `a & m` for any `a`, negative ones in infinite two's complement, and a mask that is not. */
  function And(a: int, m: nat): nat
    decreases m
  {
    if m == 0 then 0
    else (if a % 2 == 1 && m % 2 == 1 then 1 else 0) + 2 * And(a / 2, m / 2)
  }

  /** Bit `i` of an integer in infinite two's complement. */
  function Bit(a: int, i: nat): bool
    decreases i
  {
    if i == 0 then a % 2 == 1 else Bit(a / 2, i - 1)
  }

  lemma {:induction false} XorIsBitwise(a: nat, b: nat, i: nat)
    ensures Bit(Xor(a, b), i) == (Bit(a, i) != Bit(b, i))
    decreases i
  {
    var x := Xor(a, b);
    assert x % 2 == (if a % 2 != b % 2 then 1 else 0) && x / 2 == Xor(a / 2, b / 2);
    if i > 0 {
      XorIsBitwise(a / 2, b / 2, i - 1);
    }
  }

  lemma {:induction false} AndIsBitwise(a: int, m: nat, i: nat)
    ensures Bit(And(a, m), i) == (Bit(a, i) && Bit(m, i))
    decreases i
  {
    AndHalves(a, m);
    if i > 0 {
      AndIsBitwise(a / 2, m / 2, i - 1);
    }
  }

  lemma AndHalves(a: int, m: nat)
    ensures And(a, m) % 2 == (if a % 2 == 1 && m % 2 == 1 then 1 else 0)
    ensures And(a, m) / 2 == And(a / 2, m / 2)
  {
  }

  lemma ModUnique(a: int, d: nat, q: int, r: int)
    requires d > 0 && a == q * d + r && 0 <= r < d
    ensures a % d == r
  {
    var p := a / d;
    assert a == p * d + a % d;
    var e := p - q;
    assert e * d == r - a % d;
    if e >= 1 {
      AtLeastOnce(e, d);
    } else if -e >= 1 {
      AtLeastOnce(-e, d);
    }
  }

  lemma AtLeastOnce(e: nat, d: nat)
    requires e >= 1
    ensures e * d >= d
  {
  }

  lemma ModDouble(a: int, d: nat)
    requires d > 0
    ensures a % (2 * d) == a % 2 + 2 * ((a / 2) % d)
  {
    var q, r := (a / 2) / d, (a / 2) % d;
    assert a / 2 == q * d + r;
    assert a == q * (2 * d) + (2 * r + a % 2);
    ModUnique(a, 2 * d, q, 2 * r + a % 2);
  }

  lemma OneMoreOne(a: int, p: nat)
    requires p > 0 && And(a / 2, p - 1) == (a / 2) % p
    ensures And(a, 2 * p - 1) == a % (2 * p)
  {
    hide And;
    OnesHalved(p);
    AndHalves(a, 2 * p - 1);
    ModDouble(a, p);
    FromHalves(And(a, 2 * p - 1), a, (a / 2) % p);
  }

  lemma OnesHalved(p: nat)
    requires p > 0
    ensures (2 * p - 1) / 2 == p - 1 && (2 * p - 1) % 2 == 1
  {
  }

  lemma FromHalves(x: nat, a: int, half: nat)
    requires x % 2 == a % 2 && x / 2 == half
    ensures x == a % 2 + 2 * half
  {
  }

  /** Masking with n ones is reduction modulo 2^n, for negative integers too. */
  lemma {:induction false} MaskIsModulo(a: int, n: nat)
    ensures And(a, Pow2(n) - 1) == a % Pow2(n)
    decreases n
  {
    hide And;
    if n == 0 {
      AndNothing(a);
    } else {
      MaskIsModulo(a / 2, n - 1);
      OneMoreOne(a, Pow2(n - 1));
    }
  }

  lemma AndNothing(a: int)
    ensures And(a, 0) == 0
  {
  }

  /** Masking before or after an exclusive or makes no difference. */
  lemma {:induction false} XorModulo(a: nat, b: nat, n: nat)
    ensures Xor(a, b) % Pow2(n) == Xor(a % Pow2(n), b % Pow2(n))
    decreases n
  {
    hide Xor;
    if n == 0 {
      XorStep(0, 0);
    } else {
      var d := Pow2(n - 1);
      XorModulo(a / 2, b / 2, n - 1);
      XorStep(a, b);
      XorStep(a % (2 * d), b % (2 * d));
      ModDouble(Xor(a, b), d);
      HalveMod(a, d);
      HalveMod(b, d);
    }
  }

  lemma HalveMod(a: nat, d: nat)
    requires d > 0
    ensures (a % (2 * d)) % 2 == a % 2 && (a % (2 * d)) / 2 == (a / 2) % d
  {
    ModDouble(a, d);
  }

  lemma XorStep(a: nat, b: nat)
    ensures Xor(a, b) % 2 == (if a % 2 != b % 2 then 1 else 0)
    ensures Xor(a, b) / 2 == Xor(a / 2, b / 2)
    ensures Xor(a, b) == (if a % 2 != b % 2 then 1 else 0) + 2 * Xor(a / 2, b / 2)
  {
  }

  lemma Pow2Of32()
    ensures Pow2(32) == 0x1_0000_0000
  {
    assert Pow2(8) == 256;
    assert Pow2(16) == 65_536;
    assert Pow2(24) == 16_777_216;
  }
}
