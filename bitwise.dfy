/**
 * PHP's integer bit operators (`&`, `|`, `~`, `>>`, `<<`) on two's-complement integers.
 *
 * PHP integers are 64-bit two's complement. Here they are unbounded `int`s read in two's
 * complement: bit k of x is `(x / 2^k) % 2`, with Dafny's floor division, so a negative
 * integer has infinitely many leading one bits. For operands inside the 64-bit range `&`,
 * `|`, `~` and `>>` give exactly PHP's results; `<<` does so while the product stays inside
 * that range (PHP's `1 << 63` wraps around, `Shl(1, 63)` does not).
 */
module Bitwise {

  function Pow2(k: nat): (r: nat)
    ensures r >= 1
  {
    if k == 0 then 1 else 2 * Pow2(k - 1)
  }

  function Abs(x: int): nat
  {
    if x < 0 then -x else x
  }

  /** Bit k of x: PHP's `($x >> $k) & 1` read as a boolean. */
  predicate Bit(x: int, k: nat)
  {
    (x / Pow2(k)) % 2 == 1
  }

  /** PHP `~$x`. */
  function Not(x: int): int
  {
    -x - 1
  }

  /** PHP `$a & $b`, bit by bit from the lowest; 0 and -1 are the all-zeros and all-ones words. */
  function And(a: int, b: int): int
    decreases Abs(a) + Abs(b)
  {
    if a == 0 || b == 0 then 0
    else if a == -1 then b
    else if b == -1 then a
    else 2 * And(a / 2, b / 2) + (if a % 2 == 1 && b % 2 == 1 then 1 else 0)
  }

  /** PHP `$a | $b`, by De Morgan's law from And and Not. */
  function Or(a: int, b: int): int
  {
    Not(And(Not(a), Not(b)))
  }

  /** PHP `$x >> $k`: an arithmetic shift, which is floor division by 2^k. */
  function Shr(x: int, k: nat): int
  {
    x / Pow2(k)
  }

  /** PHP `$x << $k` for results inside the word. */
  function Shl(x: int, k: nat): int
  {
    x * Pow2(k)
  }

  /** The integer whose low |low| bits are `low` (lowest first) and whose other bits are zero. */
  function BitsValue(low: seq<bool>): (r: nat)
    ensures r < Pow2(|low|)
  {
    if low == [] then 0 else (if low[0] then 1 else 0) + 2 * BitsValue(low[1..])
  }

  /** x with its low |low| bits replaced by `low`. */
  function WithLowBits(x: int, low: seq<bool>): int
  {
    Pow2(|low|) * (x / Pow2(|low|)) + BitsValue(low)
  }

  // ---------------------------------------------------------------------------------------
  // Division facts

  lemma DivUnique(x: int, d: int, q: int, r: int)
    requires d > 0 && 0 <= r < d && x == d * q + r
    ensures x / d == q && x % d == r
  {
    var q', r' := x / d, x % d;
    assert x == d * q' + r';
    if q' < q {
      assert d * (q - q') >= d by { MulAtLeast(d, q - q'); }
      assert false;
    } else if q' > q {
      assert d * (q' - q) >= d by { MulAtLeast(d, q' - q); }
      assert false;
    }
  }

  lemma MulAtLeast(d: int, t: int)
    requires d > 0 && t >= 1
    ensures d * t >= d
  {
  }

  lemma DivDiv(x: int, b: int, c: int)
    requires b > 0 && c > 0
    ensures x / b / c == x / (b * c)
  {
    var q, r := x / b, x % b;
    var q2, r2 := q / c, q % c;
    assert x == b * q + r;
    assert q == c * q2 + r2;
    assert b * q == (b * c) * q2 + b * r2 by { Distribute(b, c, q2, r2); }
    assert b * r2 <= b * c - b by { MulMonoLe(b, r2, c - 1); }
    assert 0 <= b * r2 by { MulMonoLe(b, 0, r2); }
    DivUnique(x, b * c, q2, b * r2 + r);
  }

  lemma Distribute(b: int, c: int, q: int, r: int)
    ensures b * (c * q + r) == (b * c) * q + b * r
  {
  }

  lemma MulMonoLe(b: int, s: int, t: int)
    requires b >= 0 && s <= t
    ensures b * s <= b * t
  {
  }

  lemma Pow2Add(j: nat, k: nat)
    ensures Pow2(j + k) == Pow2(j) * Pow2(k)
    decreases j
  {
    if j > 0 {
      Pow2Add(j - 1, k);
    }
  }

  lemma Pow2Mono(j: nat, k: nat)
    requires j <= k
    ensures Pow2(j) <= Pow2(k)
    decreases k
  {
    if j < k {
      Pow2Mono(j, k - 1);
    }
  }

  // ---------------------------------------------------------------------------------------
  // Bits of shifted and small values

  lemma {:induction false} BitSucc(x: int, k: nat)
    ensures Bit(x, k + 1) == Bit(x / 2, k)
  {
    DivDiv(x, 2, Pow2(k));
  }

  /** Bit j of `x >> k` is bit j + k of x. */
  lemma {:induction false} BitShr(x: int, k: nat, j: nat)
    ensures Bit(Shr(x, k), j) == Bit(x, j + k)
  {
    DivDiv(x, Pow2(k), Pow2(j));
    Pow2Add(k, j);
  }

  /** A non-negative value below 2^k has no bit k or higher set. */
  lemma {:induction false} BitAbove(x: int, w: nat, k: nat)
    requires 0 <= x < Pow2(w) && w <= k
    ensures !Bit(x, k)
  {
    Pow2Mono(w, k);
    DivUnique(x, Pow2(k), 0, x);
  }

  /** Splitting an integer at bit w: a low part below 2^w and a high part above. */
  lemma {:induction false} BitPlace(h: int, l: int, w: nat, k: nat)
    requires 0 <= l < Pow2(w)
    ensures Bit(Pow2(w) * h + l, k) == if k < w then Bit(l, k) else Bit(h, k - w)
    decreases w
  {
    if w == 0 {
      assert Pow2(w) * h + l == h;
    } else {
      HalveSplit(h, l, w);
      var x := Pow2(w) * h + l;
      if k == 0 {
        Bit0(x);
        Bit0(l);
      } else {
        BitSucc(x, k - 1);
        BitSucc(l, k - 1);
        BitPlace(h, l / 2, w - 1, k - 1);
      }
    }
  }

  lemma HalveSplit(h: int, l: int, w: nat)
    requires w > 0 && 0 <= l < Pow2(w)
    ensures (Pow2(w) * h + l) / 2 == Pow2(w - 1) * h + l / 2
    ensures (Pow2(w) * h + l) % 2 == l % 2
    ensures 0 <= l / 2 < Pow2(w - 1)
  {
    var p := Pow2(w - 1);
    assert Pow2(w) == 2 * p;
    assert Pow2(w) * h == 2 * (p * h);
    DivUnique(Pow2(w) * h + l, 2, p * h + l / 2, l % 2);
  }

  lemma {:induction false} BitsValueBits(low: seq<bool>, k: nat)
    ensures Bit(BitsValue(low), k) == (k < |low| && low[k])
    decreases |low|
  {
    if low == [] {
      assert BitsValue(low) == 0;
    } else {
      var x := BitsValue(low);
      var b := if low[0] then 1 else 0;
      var rest := BitsValue(low[1..]);
      assert x == 2 * rest + b;
      DivUnique(x, 2, rest, b);
      if k == 0 {
        Bit0(x);
      } else {
        BitSucc(x, k - 1);
        BitsValueBits(low[1..], k - 1);
      }
    }
  }

  /** Bit 0 is the remainder modulo 2. */
  lemma Bit0(x: int)
    ensures Bit(x, 0) == (x % 2 == 1)
  {
    assert Pow2(0) == 1;
  }

  /** Replacing the low bits of x changes those bits and no other. */
  lemma {:induction false} WithLowBitsBits(x: int, low: seq<bool>, k: nat)
    ensures Bit(WithLowBits(x, low), k) == if k < |low| then low[k] else Bit(x, k)
  {
    var n := |low|;
    BitPlace(x / Pow2(n), BitsValue(low), n, k);
    BitsValueBits(low, k);
    if k >= n {
      BitShr(x, n, k - n);
    }
  }

  /** Bits of 2^j: only bit j is set. */
  lemma {:induction false} Pow2Bits(j: nat, k: nat)
    ensures Bit(Pow2(j), k) == (k == j)
  {
    assert Pow2(j) == Pow2(j) * 1 + 0;
    BitPlace(1, 0, j, k);
    if k < j {
      assert !Bit(0, k);
    } else if k > j {
      BitAbove(1, 1, k - j);
    }
  }

  // ---------------------------------------------------------------------------------------
  // Bits of the operators

  /** Two integers with the same bits are equal. */
  lemma {:induction false} BitsEqual(a: int, b: int)
    requires forall k: nat :: Bit(a, k) == Bit(b, k)
    ensures a == b
    decreases Abs(a) + Abs(b)
  {
    assert Bit(a, 0) == Bit(b, 0);
    if (a == 0 || a == -1) && (b == 0 || b == -1) {
    } else {
      forall k: nat
        ensures Bit(a / 2, k) == Bit(b / 2, k)
      {
        BitSucc(a, k);
        BitSucc(b, k);
        assert Bit(a, k + 1) == Bit(b, k + 1);
      }
      BitsEqual(a / 2, b / 2);
    }
  }

  lemma AndStep(a: int, b: int)
    ensures And(a, b) / 2 == And(a / 2, b / 2)
    ensures And(a, b) % 2 == (if a % 2 == 1 && b % 2 == 1 then 1 else 0)
  {
    if a == 0 || b == 0 {
      assert And(a / 2, b / 2) == 0;
    } else if a == -1 {
      assert And(a / 2, b / 2) == b / 2;
    } else if b == -1 {
      assert And(a / 2, b / 2) == a / 2;
    } else {
      var c := if a % 2 == 1 && b % 2 == 1 then 1 else 0;
      DivUnique(And(a, b), 2, And(a / 2, b / 2), c);
    }
  }

  lemma {:induction false} BitAnd(a: int, b: int, k: nat)
    ensures Bit(And(a, b), k) == (Bit(a, k) && Bit(b, k))
    decreases k
  {
    AndStep(a, b);
    if k > 0 {
      BitSucc(And(a, b), k - 1);
      BitSucc(a, k - 1);
      BitSucc(b, k - 1);
      BitAnd(a / 2, b / 2, k - 1);
    }
  }

  lemma {:induction false} BitNot(x: int, k: nat)
    ensures Bit(Not(x), k) == !Bit(x, k)
    decreases k
  {
    if k > 0 {
      assert Not(x) / 2 == Not(x / 2);
      BitSucc(Not(x), k - 1);
      BitSucc(x, k - 1);
      BitNot(x / 2, k - 1);
    }
  }

  lemma BitOr(a: int, b: int, k: nat)
    ensures Bit(Or(a, b), k) == (Bit(a, k) || Bit(b, k))
  {
    BitNot(a, k);
    BitNot(b, k);
    BitAnd(Not(a), Not(b), k);
    BitNot(And(Not(a), Not(b)), k);
  }

  /** Bits of 2^w - 1: exactly the w lowest. */
  lemma {:induction false} LowOnesBits(w: nat, k: nat)
    ensures Bit(Pow2(w) - 1, k) == (k < w)
  {
    var ones := seq(w, _ => true);
    OnesValue(w);
    BitsValueBits(ones, k);
  }

  lemma {:induction false} OnesValue(w: nat)
    ensures BitsValue(seq(w, _ => true)) == Pow2(w) - 1
    decreases w
  {
    if w > 0 {
      var ones := seq(w, _ => true);
      assert ones[1..] == seq(w - 1, _ => true);
      OnesValue(w - 1);
    }
  }

  /** `$a & (2^w - 1)` keeps the low w bits: it is the remainder of a modulo 2^w (never negative). */
  lemma {:induction false} AndLowMask(a: int, w: nat)
    ensures And(a, Pow2(w) - 1) == a % Pow2(w)
  {
    var m := a % Pow2(w);
    assert a == Pow2(w) * (a / Pow2(w)) + m;
    forall k: nat
      ensures Bit(And(a, Pow2(w) - 1), k) == Bit(m, k)
    {
      BitAnd(a, Pow2(w) - 1, k);
      LowOnesBits(w, k);
      BitPlace(a / Pow2(w), m, w, k);
      if k >= w {
        BitAbove(m, w, k);
      }
    }
    BitsEqual(And(a, Pow2(w) - 1), m);
  }

  /** `$a & 2^j` is non-zero exactly when bit j of a is set. */
  lemma {:induction false} AndSingleBit(a: int, j: nat)
    ensures (And(a, Pow2(j)) != 0) == Bit(a, j)
  {
    var m := Pow2(j);
    var y := And(a, m);
    BitAnd(a, m, j);
    Pow2Bits(j, j);
    ZeroBits(j);
    if !Bit(a, j) {
      forall k: nat
        ensures Bit(y, k) == Bit(0, k)
      {
        BitAnd(a, m, k);
        Pow2Bits(j, k);
        ZeroBits(k);
      }
      BitsEqual(y, 0);
    }
  }

  /** 0 has no bit set. */
  lemma ZeroBits(k: nat)
    ensures !Bit(0, k)
  {
  }
}
