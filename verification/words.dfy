/**
 Machine words. A word of a target with `word == 2^n` values is a natural number below `word`;
 bit operations are spelled out on the binary digits, so the bit tricks of the allocator are
 proved correct instead of being replaced by the arithmetic they stand for.
 */
module Words {

  /** `v` is one of 1, 2, 4, 8, ... */
  predicate PowerOfTwo(v: nat) {
    v == 1 || (v > 1 && v % 2 == 0 && PowerOfTwo(v / 2))
  }

  /** Bitwise conjunction, digit by digit. */
  function And(x: nat, y: nat): nat {
    if x == 0 || y == 0 then 0
    else 2 * And(x / 2, y / 2) + (if x % 2 == 1 && y % 2 == 1 then 1 else 0)
  }

  /** Bitwise complement of a word. */
  function Not(x: nat, word: nat): nat
    requires x < word
  {
    word - 1 - x
  }

  /** Unsigned addition and subtraction wrap at `word`. */
  function Add(x: nat, y: nat, word: nat): nat
    requires word > 0
  {
    (x + y) % word
  }

  function Sub(x: nat, y: nat, word: nat): nat
    requires word > 0
  {
    (x - y) % word
  }

  lemma {:induction false} AndSelf(x: nat)
    ensures And(x, x) == x
  {
    if x > 0 {
      AndSelf(x / 2);
    }
  }

  /** `v & (v - 1)` is zero exactly for powers of two. */
  lemma {:induction false} AndPredecessor(v: nat)
    requires v > 0
    ensures And(v, v - 1) == 0 <==> PowerOfTwo(v)
  {
    if v > 1 {
      if v % 2 == 0 {
        assert (v - 1) / 2 == v / 2 - 1;
        AndPredecessor(v / 2);
      } else {
        assert (v - 1) / 2 == v / 2;
        AndSelf(v / 2);
      }
    }
  }

  lemma HalfMod(x: nat, a: nat)
    requires a > 1 && a % 2 == 0
    ensures x % a == 2 * ((x / 2) % (a / 2)) + x % 2
  {
    var h := a / 2;
    var q, r := (x / 2) / h, (x / 2) % h;
    assert x / 2 == q * h + r;
    assert x == q * a + (2 * r + x % 2) by {
      assert x == 2 * (x / 2) + x % 2;
      assert 2 * (q * h) == q * a by { assert a == 2 * h; }
    }
    ModUnique(x, a, q, 2 * r + x % 2);
  }

  lemma ModUnique(x: int, a: nat, q: int, r: nat)
    requires r < a && x == q * a + r
    ensures x % a == r
  {
    RemainderUnique(a, q, r, x / a, x % a);
  }

  lemma RemainderUnique(a: nat, q: int, r: nat, q': int, r': nat)
    requires r < a && r' < a && q * a + r == q' * a + r'
    ensures r == r'
  {
    if q > q' {
      MulStep(q', q - q' - 1, a);
    } else if q < q' {
      MulStep(q, q' - q - 1, a);
    }
  }

  lemma MulStep(q: int, k: nat, a: nat)
    ensures (q + 1 + k) * a == q * a + a + k * a
    ensures k * a >= 0
  {
  }

  /** Masking with `a - 1` is the remainder modulo a power of two. */
  lemma {:induction false} AndLowMask(x: nat, a: nat)
    requires PowerOfTwo(a)
    ensures And(x, a - 1) == x % a
  {
    if x == 0 {
    } else if a > 1 {
      assert (a - 1) / 2 == a / 2 - 1;
      AndLowMask(x / 2, a / 2);
      HalfMod(x, a);
    }
  }

  /** Masking with `~(a - 1)` clears the remainder modulo a power of two. */
  lemma {:induction false} AndHighMask(x: nat, a: nat, word: nat)
    requires PowerOfTwo(a) && PowerOfTwo(word) && a <= word && x < word
    ensures And(x, Not(a - 1, word)) == x - x % a
  {
    if a == 1 {
      AndLowMask(x, word);
      ModSmall(x, word);
    } else if x == 0 {
    } else if word == a {
      ModSmall(x, a);
    } else {
      var h, r, t := x / 2, (x / 2) % (a / 2), x % a;
      var m := word - a;
      assert m % 2 == 0 by { EvenDifference(word, a); }
      assert And(h, m / 2) == h - r by {
        AndHighMask(h, a / 2, word / 2);
        assert m / 2 == Not(a / 2 - 1, word / 2);
      }
      assert And(x, m) == 2 * And(h, m / 2) by { EvenMask(x, m); }
      assert t == 2 * r + x % 2 by { HalfMod(x, a); }
      assert And(x, m) == x - t;
    }
  }

  lemma ModSmall(x: nat, a: nat)
    requires x < a
    ensures x % a == x
  {
  }

  lemma EvenDifference(x: int, y: int)
    requires x % 2 == 0 && y % 2 == 0
    ensures (x - y) % 2 == 0
  {
  }

  lemma EvenMask(x: nat, m: nat)
    requires m % 2 == 0
    ensures And(x, m) == 2 * And(x / 2, m / 2)
  {
  }

  lemma MultipleSum(x: int, y: int, a: nat)
    requires a > 0 && x % a == 0 && y % a == 0
    ensures (x + y) % a == 0 && (x - y) % a == 0
  {
    var p, q := x / a, y / a;
    assert x == p * a && y == q * a;
    assert x + y == (p + q) * a + 0 && x - y == (p - q) * a + 0;
    ModUnique(x + y, a, p + q, 0);
    ModUnique(x - y, a, p - q, 0);
  }

  /** Of two powers of two, the smaller one divides the larger one. */
  lemma {:induction false} PowersDivide(a: nat, b: nat)
    requires PowerOfTwo(a) && PowerOfTwo(b) && a <= b
    ensures b % a == 0
  {
    if a > 1 {
      PowersDivide(a / 2, b / 2);
      HalfMod(b, a);
    }
  }

  lemma PositivePower(a: nat)
    requires PowerOfTwo(a)
    ensures a > 0
  {
  }

  lemma MultipleOfMultiple(x: nat, b: nat, a: nat)
    requires a > 0 && b > 0 && x % b == 0 && b % a == 0
    ensures x % a == 0
  {
    var q, r := x / b, b / a;
    assert x == q * b && b == r * a;
    assert x == (q * r) * a;
    ModUnique(x, a, q * r, 0);
  }
}
