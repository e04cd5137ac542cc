/** Machine words and powers of two. */
module Words {

  /** An unsigned char. */
  type byte = x: int | 0 <= x < 0x100

  /** An unsigned short. */
  type u16 = x: int | 0 <= x < 0x1_0000

  /** A 32-bit unsigned int. */
  type u32 = x: int | 0 <= x < 0x1_0000_0000

  function Pow2(n: nat): (r: nat)
    ensures r > 0
  {
    if n == 0 then 1 else 2 * Pow2(n - 1)
  }

  lemma {:induction false} Pow2Mono(a: nat, b: nat)
    requires a <= b
    ensures Pow2(a) <= Pow2(b)
    decreases b
  {
    if a < b { Pow2Mono(a, b - 1); }
  }

  lemma TimesAssociates(a: int, b: int, c: int)
    ensures a * b * c == a * (b * c)
  {
  }

  lemma {:induction false} Pow2Sum(a: nat, b: nat)
    ensures Pow2(a + b) == Pow2(a) * Pow2(b)
  {
    if a > 0 {
      Pow2Sum(a - 1, b);
      TimesAssociates(2, Pow2(a - 1), Pow2(b));
      assert a - 1 + b == a + b - 1;
    }
  }

  lemma Pow2Values()
    ensures Pow2(8) == 0x100 && Pow2(16) == 0x1_0000 && Pow2(32) == 0x1_0000_0000
  {
    assert Pow2(4) == 16;
    Pow2Sum(4, 4);
    Pow2Sum(8, 8);
    Pow2Sum(16, 16);
  }

  lemma DivModUnique(a: int, p: int, q: int, r: int)
    requires p > 0 && a == q * p + r && 0 <= r < p
    ensures a / p == q && a % p == r
  {
    var d := a / p - q;
    assert a == (a / p) * p + a % p;
    assert d * p == r - a % p;
    assert d >= 1 ==> d * p >= p;
    assert d <= -1 ==> d * p <= -p;
  }
}
