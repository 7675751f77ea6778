/** Floor-division binning of RPM and manifold pressure
    (fuel_trims.py lines 60-61: `(x // size) * size`). */
module Binning {

  /** The lower edge of the bin of width `size` holding `x`. */
  function BinOf(x: real, size: int): (b: int)
    requires size > 0
    ensures b % size == 0
    ensures b as real <= x < (b + size) as real
  {
    var q := x / size as real;
    var f := q.Floor;
    FloorScaled(q, f, size);
    f * size
  }

  /** Multiplying the floor inequalities of `q` by a positive width. */
  lemma FloorScaled(q: real, f: int, size: int)
    requires size > 0
    requires f == q.Floor
    ensures (f * size) as real <= q * size as real < (f * size + size) as real
    ensures (f * size) % size == 0
  {
    var s := size as real;
    IntProductAsReal(f, size);
    IntProductAsReal(f + 1, size);
    ScaleLe(f as real, q, s);
    ScaleLt(q, f as real + 1.0, s);
    assert (f + 1) as real == f as real + 1.0;
    assert (f + 1) * size == f * size + size;
    calc {
      (f * size) as real;
    ==
      f as real * s;
    <=
      q * s;
    }
    calc {
      q * s;
    <
      (f as real + 1.0) * s;
    ==
      (f + 1) as real * s;
    ==
      ((f + 1) * size) as real;
    ==
      (f * size + size) as real;
    }
    MultipleOf(f, size);
  }

  /** `f * size` is a multiple of `size`, with quotient `f`. */
  lemma MultipleOf(f: int, size: int)
    requires size > 0
    ensures (f * size) % size == 0 && (f * size) / size == f
  {
    var q, r := (f * size) / size, (f * size) % size;
    assert f * size == q * size + r;
    assert (f - q) * size == f * size - q * size;
    MulAwayFromZero(f - q, size);
  }

  lemma ScaleLe(a: real, b: real, s: real)
    requires a <= b && s > 0.0
    ensures a * s <= b * s
  {
    assert b * s - a * s == (b - a) * s;
  }

  lemma ScaleLt(a: real, b: real, s: real)
    requires a < b && s > 0.0
    ensures a * s < b * s
  {
    assert b * s - a * s == (b - a) * s;
  }

  /** The product of two integers is the same whether taken in `int` or in `real`. */
  lemma {:induction false} IntProductAsReal(f: int, size: int)
    requires size > 0
    ensures (f * size) as real == f as real * size as real
    decreases if f < 0 then -f else f
  {
    if f > 0 {
      IntProductAsReal(f - 1, size);
      assert f * size == (f - 1) * size + size;
      assert f as real * size as real == (f - 1) as real * size as real + size as real;
    } else if f < 0 {
      IntProductAsReal(f + 1, size);
      assert f * size == (f + 1) * size - size;
      assert f as real * size as real == (f + 1) as real * size as real - size as real;
    }
  }

  /** A non-zero multiple of a positive width is at least that width away from zero. */
  lemma MulAwayFromZero(d: int, size: int)
    requires size > 0
    ensures d >= 1 ==> d * size >= size
    ensures d <= -1 ==> d * size <= -size
  {
    if d >= 1 {
      assert d * size == size + (d - 1) * size;
    } else if d <= -1 {
      assert d * size == -size + (d + 1) * size;
    }
  }

  /** Two multiples of `size` less than `size` apart are equal. */
  lemma MultiplesApart(a: int, b: int, size: int)
    requires size > 0
    requires a % size == 0 && b % size == 0
    requires a - size < b < a + size
    ensures a == b
  {
    var d := a / size - b / size;
    assert a - b == d * size by {
      assert a == (a / size) * size;
      assert b == (b / size) * size;
      assert (a / size) * size - (b / size) * size == d * size;
    }
    MulAwayFromZero(d, size);
  }

  /** The bin is the only multiple of `size` in (x - size, x]: an
      independent characterisation of the floor-division rule. */
  lemma BinUnique(x: real, size: int, b: int)
    requires size > 0
    requires b % size == 0
    requires b as real <= x < (b + size) as real
    ensures BinOf(x, size) == b
  {
    var c := BinOf(x, size);
    MultiplesApart(b, c, size);
  }

  /** A value exactly on a bin boundary belongs to the bin it starts. */
  lemma BinOnBoundary(k: int, size: int)
    requires size > 0
    ensures BinOf((k * size) as real, size) == k * size
  {
    MultipleOf(k, size);
    BinUnique((k * size) as real, size, k * size);
  }

  /** Values below the first boundary fall in bin 0. */
  lemma BinBelowFirstBoundary(x: real, size: int)
    requires size > 0
    requires 0.0 <= x < size as real
    ensures BinOf(x, size) == 0
  {
    BinUnique(x, size, 0);
  }

  /** A positive value never falls in a negative bin. */
  lemma BinOfPositive(x: real, size: int)
    requires size > 0
    requires x > 0.0
    ensures BinOf(x, size) >= 0
  {
    var b := BinOf(x, size);
    if b < 0 {
      MultiplesApart(b, -size, size);
      assert false;
    }
  }

  /** Binning is monotone: a larger value never falls in a lower bin. */
  lemma BinMonotone(x: real, y: real, size: int)
    requires size > 0
    requires x <= y
    ensures BinOf(x, size) <= BinOf(y, size)
  {
    var bx, bY := BinOf(x, size), BinOf(y, size);
    if bx > bY {
      // bx <= x <= y < bY + size, so bx lies in (bY, bY + size)
      MultiplesApart(bx, bY, size);
      assert false;
    }
  }
}
