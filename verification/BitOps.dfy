/**
  Bitwise operations on natural numbers, bit by bit, with the facts about their
  low and high parts that the list generator needs.
*/
module BitOps {

  function Xor(a: nat, b: nat): nat
    decreases a + b
  {
    if a == 0 && b == 0 then 0 else (if a % 2 != b % 2 then 1 else 0) + 2 * Xor(a / 2, b / 2)
  }

  function Or(a: nat, b: nat): nat
    decreases a + b
  {
    if a == 0 && b == 0 then 0 else (if a % 2 == 1 || b % 2 == 1 then 1 else 0) + 2 * Or(a / 2, b / 2)
  }

  /** The lowest `n` bits. */
  function Low(x: nat, n: nat): nat {
    if n == 0 then 0 else x % 2 + 2 * Low(x / 2, n - 1)
  }

  /** Without the lowest `n` bits. */
  function Shift(x: nat, n: nat): nat
    decreases n
  {
    if n == 0 then x else Shift(x / 2, n - 1)
  }

  lemma XorHalf(a: nat, b: nat)
    ensures Xor(a, b) % 2 == (if a % 2 != b % 2 then 1 else 0) && Xor(a, b) / 2 == Xor(a / 2, b / 2)
  {
  }

  lemma OrHalf(a: nat, b: nat)
    ensures Or(a, b) % 2 == (if a % 2 == 1 || b % 2 == 1 then 1 else 0) && Or(a, b) / 2 == Or(a / 2, b / 2)
  {
  }

  lemma LowHalf(x: nat, n: nat)
    requires n > 0
    ensures Low(x, n) % 2 == x % 2 && Low(x, n) / 2 == Low(x / 2, n - 1)
  {
  }

  lemma SameHalves(x: nat, y: nat)
    requires x % 2 == y % 2 && x / 2 == y / 2
    ensures x == y
  {
  }

  lemma {:induction false} XorParts(a: nat, b: nat, n: nat)
    ensures Low(Xor(a, b), n) == Xor(Low(a, n), Low(b, n))
    ensures Shift(Xor(a, b), n) == Xor(Shift(a, n), Shift(b, n))
    decreases n
  {
    if n > 0 {
      hide Xor;
      XorParts(a / 2, b / 2, n - 1);
      XorHalf(a, b);
      LowHalf(Xor(a, b), n);
      LowHalf(a, n);
      LowHalf(b, n);
      XorHalf(Low(a, n), Low(b, n));
      hide Low;
      SameHalves(Low(Xor(a, b), n), Xor(Low(a, n), Low(b, n)));
    }
  }

  lemma {:induction false} OrParts(a: nat, b: nat, n: nat)
    ensures Low(Or(a, b), n) == Or(Low(a, n), Low(b, n))
    ensures Shift(Or(a, b), n) == Or(Shift(a, n), Shift(b, n))
    decreases n
  {
    if n > 0 {
      hide Or;
      OrParts(a / 2, b / 2, n - 1);
      OrHalf(a, b);
      LowHalf(Or(a, b), n);
      LowHalf(a, n);
      LowHalf(b, n);
      OrHalf(Low(a, n), Low(b, n));
      hide Low;
      SameHalves(Low(Or(a, b), n), Or(Low(a, n), Low(b, n)));
    }
  }

  lemma {:induction false} XorInjective(a: nat, b: nat, m: nat)
    requires Xor(a, m) == Xor(b, m)
    ensures a == b
    decreases a + b + m
  {
    if a != 0 || b != 0 {
      hide Xor;
      XorHalf(a, m);
      XorHalf(b, m);
      XorInjective(a / 2, b / 2, m / 2);
      SameHalves(a, b);
    }
  }

  lemma {:induction false} OrZero(x: nat)
    ensures Or(0, x) == x
    decreases x
  {
    if x != 0 {
      OrZero(x / 2);
    }
  }

  lemma {:induction false} XorZero(x: nat)
    ensures Xor(0, x) == x && Xor(x, 0) == x
    decreases x
  {
    if x != 0 {
      XorZero(x / 2);
    }
  }

  lemma LowFour(x: nat, n: nat)
    ensures Low(x, n + 4) == x % 16 + 16 * Low(x / 16, n)
  {
    assert Low(x, n + 4) == x % 2 + 2 * Low(x / 2, n + 3);
    assert Low(x / 2, n + 3) == x / 2 % 2 + 2 * Low(x / 4, n + 2);
    assert Low(x / 4, n + 2) == x / 4 % 2 + 2 * Low(x / 8, n + 1);
    assert Low(x / 8, n + 1) == x / 8 % 2 + 2 * Low(x / 16, n);
    hide Low;
    SixteenBits(x);
  }

  lemma SixteenBits(x: nat)
    ensures x % 16 == x % 2 + 2 * (x / 2 % 2) + 4 * (x / 4 % 2) + 8 * (x / 8 % 2)
  {
    var a := x / 2;
    var b := a / 2;
    var c := b / 2;
    assert b == x / 4 && c == x / 8 && c / 2 == x / 16;
  }

  lemma ShiftFour(x: nat)
    ensures Shift(x, 4) == x / 16
  {
    assert Shift(x, 4) == Shift(x / 2, 3) == Shift(x / 4, 2) == Shift(x / 8, 1) == Shift(x / 16, 0);
  }

  lemma {:induction false} PartsAdd(x: nat, m: nat, n: nat)
    ensures Shift(x, m + n) == Shift(Shift(x, m), n)
    decreases m
  {
    if m > 0 {
      PartsAdd(x / 2, m - 1, n);
    }
  }

  lemma Parts8(x: nat)
    ensures Low(x, 8) == x % 256 && Shift(x, 8) == x / 256
  {
    LowFour(x, 4);
    LowFour(x / 16, 0);
    assert Low(x / 16 / 16, 0) == 0;
    ShiftFour(x);
    ShiftFour(x / 16);
    PartsAdd(x, 4, 4);
    hide Low, Shift;
    TwoDigits(x);
  }

  lemma TwoDigits(x: nat)
    ensures x % 256 == x % 16 + 16 * (x / 16 % 16) && x / 256 == x / 16 / 16
  {
  }

  lemma Parts11(x: nat)
    ensures Shift(x, 11) == x / 2048
  {
    Parts8(x);
    PartsAdd(x, 8, 3);
    var y := x / 256;
    assert Shift(y, 3) == Shift(y / 2, 2) == Shift(y / 4, 1) == Shift(y / 8, 0);
  }
}
