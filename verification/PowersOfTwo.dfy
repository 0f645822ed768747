/** Powers of two, and the bit operations the allocator uses, on natural numbers. */
module PowersOfTwo {
  import opened MachineWords

  predicate IsPow2(n: nat) { n == 1 || (n > 1 && n % 2 == 0 && IsPow2(n / 2)) }

  /** Is `a` a multiple of the power of two `s`? */
  predicate Aligned(a: nat, s: nat)
    requires IsPow2(s)
  {
    s == 1 || (a % 2 == 0 && Aligned(a / 2, s / 2))
  }

  lemma {:induction false} Apart(x: nat, y: nat)
    requires IsPow2(x) && IsPow2(y) && x < y
    ensures 2 * x <= y
  {
    if x > 1 { Apart(x / 2, y / 2); }
  }

  lemma Double(x: nat)
    requires IsPow2(x)
    ensures IsPow2(2 * x)
  {
  }

  // ---------------------------------------------------------------- alignment

  lemma {:induction false} ZeroAligned(s: nat)
    requires IsPow2(s)
    ensures Aligned(0, s)
  {
    if s > 1 { ZeroAligned(s / 2); }
  }

  lemma {:induction false} AlignedToLess(a: nat, s: nat, t: nat)
    requires IsPow2(s) && IsPow2(t) && t <= s && Aligned(a, s)
    ensures Aligned(a, t)
  {
    if t > 1 { AlignedToLess(a / 2, s / 2, t / 2); }
  }

  lemma {:induction false} AlignedSum(a: nat, b: nat, s: nat)
    requires IsPow2(s) && Aligned(a, s) && Aligned(b, s)
    ensures Aligned(a + b, s)
  {
    if s > 1 { AlignedSum(a / 2, b / 2, s / 2); }
  }

  lemma {:induction false} SelfAligned(s: nat)
    requires IsPow2(s)
    ensures Aligned(s, s)
  {
    if s > 1 { SelfAligned(s / 2); }
  }

  /** Of the multiples of `s`, every second one is a multiple of `2 * s`. */
  lemma {:induction false} AlternatelyAligned(a: nat, s: nat)
    requires IsPow2(s) && IsPow2(2 * s) && Aligned(a, s)
    ensures Aligned(a + s, s)
    ensures Aligned(a + s, 2 * s) <==> !Aligned(a, 2 * s)
    ensures !Aligned(a, 2 * s) ==> s <= a && Aligned(a - s, 2 * s)
    decreases s
  {
    if s == 1 {
      assert Aligned(a, 2) <==> a % 2 == 0;
      assert Aligned(a + 1, 2) <==> (a + 1) % 2 == 0;
      assert a > 0 ==> (Aligned(a - 1, 2) <==> (a - 1) % 2 == 0);
    } else {
      AlternatelyAligned(a / 2, s / 2);
      assert (a + s) / 2 == a / 2 + s / 2;
      assert a >= s ==> (a - s) / 2 == a / 2 - s / 2;
    }
  }

  function Times(q: nat, s: nat): nat { q * s }

  lemma TimesHalf(q: nat, s: nat)
    requires s % 2 == 0
    ensures Times(q, s) == 2 * Times(q, s / 2)
  {
    assert s == 2 * (s / 2);
  }

  /** The recursive form of alignment is being a multiple. */
  lemma {:induction false} AlignedIsMultiple(a: nat, s: nat)
    requires IsPow2(s)
    ensures Aligned(a, s) <==> exists q: nat :: a == Times(q, s)
  {
    if s == 1 {
      assert a == Times(a, 1);
    } else {
      AlignedIsMultiple(a / 2, s / 2);
      if Aligned(a, s) {
        var q: nat :| a / 2 == Times(q, s / 2);
        TimesHalf(q, s);
        assert a == Times(q, s);
      }
      forall q: nat ensures a == Times(q, s) ==> Aligned(a, s) {
        TimesHalf(q, s);
        assert a / 2 == Times(q, s / 2) ==> Aligned(a / 2, s / 2);
      }
    }
  }

  // ---------------------------------------------------------------- bitwise operations

  function Or(a: nat, b: nat): nat {
    if a == 0 && b == 0 then 0 else 2 * Or(a / 2, b / 2) + (if a % 2 + b % 2 > 0 then 1 else 0)
  }

  function And(a: nat, b: nat): nat {
    if a == 0 && b == 0 then 0 else 2 * And(a / 2, b / 2) + (if a % 2 + b % 2 == 2 then 1 else 0)
  }

  function Xor(a: nat, b: nat): nat {
    if a == 0 && b == 0 then 0 else 2 * Xor(a / 2, b / 2) + (a + b) % 2
  }

  function Shr(a: nat, k: nat): nat { if k == 0 then a else Shr(a / 2, k - 1) }

  /** A number is a power of two exactly when it shares no bit with its predecessor. */
  lemma {:induction false} AndPredecessor(n: nat)
    requires n > 0
    ensures And(n, n - 1) == 0 <==> IsPow2(n)
  {
    if n % 2 == 0 {
      AndPredecessor(n / 2);
      assert (n - 1) / 2 == n / 2 - 1;
    } else {
      AndSame(n / 2);
      assert (n - 1) / 2 == n / 2;
    }
  }

  lemma {:induction false} AndSame(n: nat)
    ensures And(n, n) == n
  {
    if n > 0 { AndSame(n / 2); }
  }

  lemma {:induction false} XorZero(a: nat)
    ensures Xor(a, 0) == a
  {
    if a > 0 { XorZero(a / 2); }
  }

  /** The buddy of an aligned chunk lies just after it when the pair starts here, else just before. */
  lemma {:induction false} XorBuddy(a: nat, s: nat)
    requires IsPow2(s) && IsPow2(2 * s) && Aligned(a, s)
    ensures !Aligned(a, 2 * s) ==> s <= a
    ensures Xor(a, s) == if Aligned(a, 2 * s) then a + s else a - s
    decreases s
  {
    AlternatelyAligned(a, s);
    if s == 1 {
      XorZero(a / 2);
      assert Xor(a, 1) == 2 * Xor(a / 2, 0) + (a + 1) % 2;
      assert Aligned(a, 2) <==> a % 2 == 0;
    } else {
      XorBuddy(a / 2, s / 2);
      assert Xor(a, s) == 2 * Xor(a / 2, s / 2) + (a + s) % 2;
    }
  }

  // ---------------------------------------------------------------- the next power of two

  /** The least power of two that is no smaller than `n`. */
  function NextPow2(n: nat): (r: nat)
    ensures r > 0
  {
    if n <= 1 then 1 else 2 * NextPow2((n + 1) / 2)
  }

  lemma {:induction false} NextPow2Fits(n: nat)
    ensures IsPow2(NextPow2(n)) && n <= NextPow2(n)
    ensures n > 1 ==> NextPow2(n) < 2 * n
  {
    if n > 1 {
      var m := (n + 1) / 2;
      NextPow2Fits(m);
      var p := NextPow2(m);
      assert NextPow2(n) == 2 * p;
      assert p == 1 || p % 2 == 0;
      Double(p);
    }
  }

  lemma {:induction false} NextPow2IsLeast(n: nat, p: nat)
    requires IsPow2(p) && n <= p
    ensures NextPow2(n) <= p
  {
    if n > 1 { NextPow2IsLeast((n + 1) / 2, p / 2); }
  }

  function Pow2(k: nat): nat { if k == 0 then 1 else 2 * Pow2(k - 1) }

  /** `j` ones. */
  function Ones(j: nat): nat { if j == 0 then 0 else 2 * Ones(j - 1) + 1 }

  lemma {:induction false} OnesBelow(j: nat)
    ensures Ones(j) + 1 == Pow2(j)
  {
    if j > 0 { OnesBelow(j - 1); }
  }

  lemma {:induction false} ShrShr(a: nat, j: nat, k: nat)
    ensures Shr(Shr(a, j), k) == Shr(a, j + k)
  {
    if j > 0 { ShrShr(a / 2, j - 1, k); }
  }

  lemma {:induction false} ShrOnes(j: nat, k: nat)
    ensures Shr(Ones(j + k), k) == Ones(j)
  {
    if k > 0 { ShrOnes(j, k - 1); }
  }

  lemma {:induction false} OrShr(a: nat, b: nat, k: nat)
    ensures Shr(Or(a, b), k) == Or(Shr(a, k), Shr(b, k))
    decreases k
  {
    if k > 0 { OrShr(a / 2, b / 2, k - 1); }
  }

  lemma {:induction false} OrZero(a: nat)
    ensures Or(a, 0) == a
  {
    if a > 0 { OrZero(a / 2); }
  }

  /** Or-ing ones below ones. */
  lemma {:induction false} OrOnes(y: nat, i: nat, j: nat)
    requires Shr(y, j) == Ones(i)
    ensures Or(y, Ones(j)) == Ones(i + j)
    decreases j
  {
    if j == 0 {
      OrZero(y);
    } else {
      OrOnes(y / 2, i, j - 1);
      assert Ones(j) / 2 == Ones(j - 1);
      assert Or(y, Ones(j)) == 2 * Or(y / 2, Ones(j - 1)) + 1;
    }
  }

  /** `v` has `len` bits, and the `j` highest of them are ones. */
  ghost predicate Filled(v: nat, len: nat, j: nat) {
    && 0 < j
    && (if j < len then Shr(v, len - j) == Ones(j) else v == Ones(len))
  }

  lemma SmearFew(v: nat, k: nat, j: nat)
    requires j <= k && Shr(v, k) == Ones(j)
    ensures Shr(Or(v, Shr(v, j)), k - j) == Ones(2 * j)
  {
    OrShr(v, Shr(v, j), k - j);
    ShrShr(v, j, k - j);
    ShrShr(v, k - j, j);
    OrOnes(Shr(v, k - j), j, j);
  }

  lemma SmearMany(v: nat, k: nat, j: nat)
    requires k <= j && Shr(v, k) == Ones(j)
    ensures Or(v, Shr(v, j)) == Ones(j + k)
  {
    ShrShr(v, k, j - k);
    ShrOnes(k, j - k);
    OrOnes(v, j, k);
  }

  lemma SmearAll(len: nat, j: nat)
    requires len <= j
    ensures Or(Ones(len), Shr(Ones(len), j)) == Ones(len)
  {
    ShrOnes(0, len);
    ShrShr(Ones(len), len, j - len);
    ShrZero(j - len);
    OrZero(Ones(len));
  }

  function Smeared(v: nat, j: nat): nat { Or(v, Shr(v, j)) }

  /** Or-ing a number with itself shifted by `j` doubles the ones at its top. */
  lemma Smear(v: nat, len: nat, j: nat)
    requires Filled(v, len, j)
    ensures Filled(Smeared(v, j), len, 2 * j)
  {
    if len <= j {
      SmearAll(len, j);
    } else if 2 * j < len {
      SmearFew(v, len - j, j);
    } else {
      SmearMany(v, len - j, j);
    }
  }

  lemma {:induction false} ShrZero(k: nat)
    ensures Shr(0, k) == 0
  {
    if k > 0 { ShrZero(k - 1); }
  }

  /** The bit length of a positive number. */
  lemma {:induction false} BitLength(v: nat) returns (len: nat)
    requires 0 < v
    ensures Filled(v, len, 1) && Pow2(len) <= 2 * v && NextPow2(v + 1) == Pow2(len)
  {
    if v == 1 {
      len := 1;
      assert Pow2(1) == 2 && Ones(1) == 1;
      assert NextPow2(2) == 2 * NextPow2(1);
    } else {
      len := BitLength(v / 2);
      assert (v + 2) / 2 == v / 2 + 1;
      assert len > 0 by { assert Ones(0) == 0; }
      assert Ones(1) == 1;
      if len == 1 { assert Shr(v / 2, 0) == v / 2; }
      len := len + 1;
      assert Shr(v, len - 1) == Shr(v / 2, len - 2);
    }
  }

  lemma {:induction false} Pow2Monotone(i: nat, j: nat)
    requires i <= j
    ensures Pow2(i) <= Pow2(j)
  {
    if i < j { Pow2Monotone(i, j - 1); }
  }

  /** The shifts 1, 2, 4, 8, 16 and 32 reach every bit of a 64-bit number. */
  lemma SixSmears(n: nat)
    requires 1 <= n <= TWO63
    ensures Smeared(Smeared(Smeared(Smeared(Smeared(Smeared(n - 1, 1), 2), 4), 8), 16), 32) + 1 == NextPow2(n)
  {
    var v0 := n - 1;
    var v1 := Smeared(v0, 1);
    var v2 := Smeared(v1, 2);
    var v3 := Smeared(v2, 4);
    var v4 := Smeared(v3, 8);
    var v5 := Smeared(v4, 16);
    if n == 1 {
      SmearZero(1);
      SmearZero(2);
      SmearZero(4);
      SmearZero(8);
      SmearZero(16);
      SmearZero(32);
    } else {
      var len := BitLength(v0);
      ShortEnough(n, len);
      Smear(v0, len, 1);
      Smear(v1, len, 2);
      Smear(v2, len, 4);
      Smear(v3, len, 8);
      Smear(v4, len, 16);
      Smear(v5, len, 32);
      OnesBelow(len);
    }
  }

  lemma SmearZero(j: nat)
    ensures Smeared(0, j) == 0
  {
    ShrZero(j);
  }

  lemma Nibble(i: nat)
    ensures Pow2(i + 4) == 16 * Pow2(i)
  {
    assert Pow2(i + 2) == 4 * Pow2(i) by { assert Pow2(i + 1) == 2 * Pow2(i); }
    assert Pow2(i + 3) == 2 * Pow2(i + 2);
  }

  lemma Byte(i: nat)
    ensures Pow2(i + 8) == 256 * Pow2(i)
  {
    Nibble(i);
    Nibble(i + 4);
  }

  lemma EightBytes()
    ensures Pow2(64) == 2 * TWO63
  {
    Byte(0);
    Byte(8);
    Byte(16);
    Byte(24);
    Byte(32);
    Byte(40);
    Byte(48);
    Byte(56);
  }

  lemma ShortEnough(n: nat, len: nat)
    requires 1 <= n <= TWO63 && Pow2(len) <= 2 * (n - 1)
    ensures len <= 63
  {
    EightBytes();
    Pow2Monotone(64, if len < 64 then 64 else len);
  }

  method NextLargestPowerOf2(n: nat) returns (r: nat)
    requires 1 <= n <= TWO63
    ensures r == NextPow2(n)
  {
    var v := n - 1;
    v := Or(v, Shr(v, 1));
    v := Or(v, Shr(v, 2));
    v := Or(v, Shr(v, 4));
    v := Or(v, Shr(v, 8));
    v := Or(v, Shr(v, 16));
    v := Or(v, Shr(v, 32));
    r := v + 1;
    SixSmears(n);
  }
}
