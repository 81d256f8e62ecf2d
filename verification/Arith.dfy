/** Arithmetic of alignment and powers of two that several parts of the model share. */
module Arith {

  lemma MultipleMod(q: nat, d: nat)
    requires d > 0
    ensures (q * d) % d == 0 && (q * d) / d == q
  {
    QuotientUnique(q * d, d, q, 0);
  }

  lemma QuotientUnique(x: int, d: nat, q: int, r: nat)
    requires d > 0 && x == q * d + r && r < d
    ensures x / d == q && x % d == r
  {
    var q', r' := x / d, x % d;
    assert x == q' * d + r';
    assert (q - q') * d == r' - r;
    ScaleBound(q - q', d);
  }

  lemma ScaleBound(k: int, d: int)
    requires d >= 0
    ensures k >= 1 ==> k * d >= d
    ensures k <= -1 ==> k * d <= -d
  {
    if k >= 1 {
      assert k * d == (k - 1) * d + d;
    } else if k <= -1 {
      assert k * d == (k + 1) * d - d;
    }
  }

  lemma ModTransitive(x: nat, big: nat, small: nat)
    requires big > 0 && small > 0 && x % big == 0 && big % small == 0
    ensures x % small == 0
  {
    var p, q := x / big, big / small;
    assert x == p * big && big == q * small;
    assert p * (q * small) == (p * q) * small;
    MultipleMod(p * q, small);
  }

  lemma ModAdd(x: nat, y: nat, d: nat)
    requires d > 0 && x % d == 0 && y % d == 0
    ensures (x + y) % d == 0
  {
    var p, q := x / d, y / d;
    assert x + y == (p + q) * d;
    MultipleMod(p + q, d);
  }

  lemma NextMod(x: nat, d: nat)
    requires d > 0
    ensures (x % d + 1) % d == (x + 1) % d
  {
    var q, r := x / d, x % d;
    if r + 1 < d {
      QuotientUnique(x + 1, d, q, r + 1);
      QuotientUnique(r + 1, d, 0, r + 1);
    } else {
      assert (q + 1) * d == q * d + d;
      QuotientUnique(x + 1, d, q + 1, 0);
      QuotientUnique(r + 1, d, 1, 0);
    }
  }

  /** The macro `ALIGN_TO`: the distance to the next multiple of `align`. */
  function AlignTo(x: nat, align: nat): nat
    requires align > 0
  {
    if x % align != 0 then align - x % align else 0
  }

  lemma AlignToReaches(x: nat, align: nat)
    requires align > 0
    ensures (x + AlignTo(x, align)) % align == 0
    ensures AlignTo(x, align) < align
    ensures x % align == 0 <==> AlignTo(x, align) == 0
  {
    var q, r := x / align, x % align;
    if r != 0 {
      assert x + (align - r) == (q + 1) * align;
      MultipleMod(q + 1, align);
    }
  }

  function Pow2(n: nat): (p: nat)
    ensures p > 0
  {
    if n == 0 then 1 else 2 * Pow2(n - 1)
  }

  lemma {:induction false} Pow2Monotone(a: nat, b: nat)
    requires a <= b
    ensures Pow2(a) <= Pow2(b)
    decreases b
  {
    if a < b {
      Pow2Monotone(a, b - 1);
    }
  }
}
