/** The path of a drag and the place of a pixel on QEMU's tablet (`src/pointer.rs`,
    `src/commands/gui.rs`). */
module Pointer {
  const ABS_MAX: nat := 0x7fff

  /** The number of steps up to which the products of every drag fit 64 bits. */
  const LONGEST: nat := 0x8000_0000

  type u32 = n: int | 0 <= n < 0x1_0000_0000

  /** Division that drops the remainder, towards zero on either side. */
  function Quotient(a: int, b: int): int
    requires b > 0
  {
    if a >= 0 then a / b else -(-a / b)
  }

  predicate FitsI64(n: int) {
    -0x8000_0000_0000_0000 <= n < 0x8000_0000_0000_0000
  }

  function Max1(steps: u32): u32 {
    if steps < 1 then 1 else steps
  }

  /** The product the division is of, before it is cut to 64 bits. */
  function Way(a: u32, b: u32, i: u32): int {
    (b - a) * i
  }

  /** A result as signed 64-bit arithmetic keeps it, where overflow is not checked. */
  function Wrapped(n: int): int {
    var m := n % 0x1_0000_0000_0000_0000;
    if m < 0x8000_0000_0000_0000 then m else m - 0x1_0000_0000_0000_0000
  }

  /** One coordinate after `i` of `steps` steps. */
  function Along(a: u32, b: u32, i: u32, steps: u32): u32
    requires steps > 0
  {
    (a + Quotient(Wrapped(Way(a, b, i)), steps)) % 0x1_0000_0000
  }

  function Travel(from: (u32, u32), to: (u32, u32), steps: u32): seq<(u32, u32)> {
    var n := Max1(steps);
    seq(n, k requires 0 <= k < n => (Along(from.0, to.0, k + 1, n), Along(from.1, to.1, k + 1, n)))
  }

  predicate Between(x: int, a: int, b: int) {
    a <= x <= b || b <= x <= a
  }

  lemma QuotientScales(d: int, i: nat, steps: nat)
    requires 0 < steps && i <= steps
    ensures Between(Quotient(d * i, steps), 0, d)
    ensures i == steps ==> Quotient(d * i, steps) == d
  {
    var e := if d >= 0 then d else -d;
    ScaledDown(e, i, steps);
    assert d * i == if d >= 0 then e * i else -(e * i);
    if d < 0 && e * i == 0 {
      assert Quotient(0, steps) == 0;
    }
  }

  lemma ScaledDown(e: nat, i: nat, steps: nat)
    requires 0 < steps && i <= steps
    ensures 0 <= e * i / steps <= e && (i == steps ==> e * i / steps == e)
  {
    MulAtMost(i, steps, e);
    DivAtMost(e * i, e * steps, steps);
    DivExact(e, steps);
  }

  lemma MulAtMost(a: nat, b: nat, c: nat)
    requires a <= b
    ensures c * a <= c * b
  {
  }

  lemma DivBounds(a: nat, c: nat)
    requires c > 0
    ensures 0 <= a / c && c * (a / c) <= a < c * (a / c) + c
  {
  }

  /** The quotient is the only number of times the divisor fits. */
  lemma DivUnique(a: nat, c: nat, q: nat)
    requires c > 0 && c * q <= a < c * q + c
    ensures a / c == q
  {
    DivBounds(a, c);
    if a / c > q {
      MulAtMost(q + 1, a / c, c);
    } else if a / c < q {
      MulAtMost(a / c + 1, q, c);
    }
  }

  lemma DivAtMost(a: nat, b: nat, c: nat)
    requires a <= b && c > 0
    ensures 0 <= a / c <= b / c
  {
    var p, q := a / c, b / c;
    DivBounds(a, c);
    DivBounds(b, c);
    if p > q {
      MulAtMost(q + 1, p, c);
    }
  }

  lemma DivExact(e: nat, c: nat)
    requires c > 0
    ensures e * c / c == e
  {
    DivUnique(e * c, c, e);
  }

  // ----- Drags -----

  lemma ProductFits(a: u32, b: u32, i: u32, steps: u32)
    requires i <= steps <= LONGEST
    ensures FitsI64(Way(a, b, i))
  {
    var d := b - a;
    var e := if d >= 0 then d else -d;
    MulAtMost(i, 0x8000_0000, e);
    MulAtMost(e, 0xffff_ffff, 0x8000_0000);
    SignedProduct(d, i);
  }

  lemma AlongIsBetween(a: u32, b: u32, i: u32, steps: u32)
    requires 0 < steps <= LONGEST && i <= steps
    ensures Along(a, b, i, steps) == a + Quotient((b - a) * i, steps)
    ensures Between(Along(a, b, i, steps), a, b)
    ensures i == steps ==> Along(a, b, i, steps) == b
  {
    ProductFits(a, b, i, steps);
    QuotientScales(b - a, i, steps);
    var at := a + Quotient((b - a) * i, steps);
    assert Between(at, a, b);
  }

  lemma QuotientGrows(d: int, i: nat, j: nat, steps: nat)
    requires 0 < steps && i <= j
    ensures Between(Quotient(d * i, steps), 0, Quotient(d * j, steps))
  {
    var e := if d >= 0 then d else -d;
    MulAtMost(0, i, e);
    MulAtMost(i, j, e);
    DivAtMost(0, e * i, steps);
    DivAtMost(e * i, e * j, steps);
    QuotientOf(d, i, steps);
    QuotientOf(d, j, steps);
  }

  lemma QuotientOf(d: int, i: nat, steps: nat)
    requires 0 < steps
    ensures Quotient(d * i, steps) == if d >= 0 then d * i / steps else -(-d * i / steps)
  {
    if d >= 0 {
      MulAtMost(0, d, i);
    } else {
      SignedProduct(d, i);
      MulAtMost(0, -d, i);
      if d * i == 0 {
        DivUnique(0, steps, 0);
      }
    }
  }

  lemma AlongIsMonotone(a: u32, b: u32, i: u32, j: u32, steps: u32)
    requires 0 < steps <= LONGEST && i <= j <= steps
    ensures Between(Along(a, b, i, steps), a, Along(a, b, j, steps))
  {
    AlongIsBetween(a, b, i, steps);
    AlongIsBetween(a, b, j, steps);
    QuotientGrows(b - a, i, j, steps);
  }

  lemma SignedProduct(d: int, i: nat)
    ensures d * i == if d >= 0 then (if d >= 0 then d else -d) * i else -((if d >= 0 then d else -d) * i)
  {
  }

  /** Each step is where an even pace would be, to within a pixel. */
  lemma StepsAreEven(a: u32, b: u32, i: u32, steps: u32)
    requires 0 < steps <= LONGEST && i <= steps
    ensures steps * (Along(a, b, i, steps) - a) - (b - a) * i < steps
    ensures (b - a) * i - steps * (Along(a, b, i, steps) - a) < steps
  {
    AlongIsBetween(a, b, i, steps);
    QuotientIsClose(b - a, i, steps);
  }

  lemma QuotientIsClose(d: int, i: nat, steps: nat)
    requires 0 < steps
    ensures steps * Quotient(d * i, steps) - d * i < steps && d * i - steps * Quotient(d * i, steps) < steps
  {
    QuotientOf(d, i, steps);
    if d >= 0 {
      MulAtMost(0, d, i);
      DivBounds(d * i, steps);
    } else {
      MulAtMost(0, -d, i);
      SignedProduct(d, i);
      DivBounds(-d * i, steps);
      var q := -d * i / steps;
      assert steps * -q == -(steps * q);
    }
  }

  /** A drag of up to 2^31 steps ends exactly on its target, goes from one end to the other
      on each axis without turning back, and so stays in the box of its ends. */
  lemma TravelArrives(from: (u32, u32), to: (u32, u32), steps: u32, i: nat, j: nat)
    requires i <= j < Max1(steps) <= LONGEST
    ensures var path := Travel(from, to, steps);
            && |path| == Max1(steps) && path[|path| - 1] == to
            && Between(path[i].0, from.0, path[j].0) && Between(path[i].1, from.1, path[j].1)
            && Between(path[j].0, from.0, to.0) && Between(path[j].1, from.1, to.1)
  {
    var n := Max1(steps);
    AlongIsBetween(from.0, to.0, n, n);
    AlongIsBetween(from.1, to.1, n, n);
    AlongIsBetween(from.0, to.0, j + 1, n);
    AlongIsBetween(from.1, to.1, j + 1, n);
    AlongIsMonotone(from.0, to.0, i + 1, j + 1, n);
    AlongIsMonotone(from.1, to.1, i + 1, j + 1, n);
  }

  /** Up to 2^31 steps no product leaves 64 bits, on any drag; beyond, the last one of the
      longest drag does. */
  lemma ProductsFitExactly(steps: u32)
    ensures (forall a: u32, b: u32, i: u32 :: i <= steps ==> FitsI64(Way(a, b, i))) <==> steps <= 0x8000_0000
  {
    if steps <= LONGEST {
      forall a: u32, b: u32, i: u32 | i <= steps
        ensures FitsI64(Way(a, b, i))
      {
        ProductFits(a, b, i, steps);
      }
    } else {
      MulAtMost(0x8000_0001, steps, 0xffff_ffff);
      var a: u32, b: u32 := 0, 0xffff_ffff;
      assert !FitsI64(Way(a, b, steps));
    }
  }

  /** Of more steps than that, the longest drag misses: its last product wraps around. */
  lemma LongDragMisses(n: u32)
    requires n > LONGEST
    ensures Along(0, 0xffff_ffff, n, n) != 0xffff_ffff
  {
    var a := 0x1_0000_0000_0000_0000 - 0xffff_ffff * n;
    var q := a / n;
    assert Wrapped(Way(0, 0xffff_ffff, n)) == -a && 0 < a;
    DivBounds(a, n);
    if q < 2 {
      MulAtMost(q, 1, n);
    } else if q > 0x1_0000_0000 {
      MulAtMost(0x1_0000_0001, q, n);
    }
    assert 2 <= q <= 0x1_0000_0000;
  }

  /** Drags of so many steps all end on their targets exactly up to 2^31 steps. */
  lemma ArrivesExactly(steps: u32)
    ensures (forall from: (u32, u32), to: (u32, u32) ::
               Travel(from, to, steps)[|Travel(from, to, steps)| - 1] == to) <==> steps <= 0x8000_0000
  {
    var n := Max1(steps);
    if n <= LONGEST {
      forall from: (u32, u32), to: (u32, u32)
        ensures Travel(from, to, steps)[|Travel(from, to, steps)| - 1] == to
      {
        TravelArrives(from, to, steps, n - 1, n - 1);
      }
    } else {
      var from: (u32, u32), to: (u32, u32) := (0, 0), (0xffff_ffff, 0);
      LongDragMisses(n);
      assert Travel(from, to, steps)[|Travel(from, to, steps)| - 1] != to;
    }
  }

  // ----- The tablet -----

  function ToTablet(pixel: u32, size: u32): nat {
    if size <= 1 then 0 else pixel * ABS_MAX / (size - 1)
  }

  /** The tablet spans the screen: its ends are the first and the last pixel, and every pixel
      has its place, in order. */
  lemma TabletSpansScreen(p: u32, q: u32, size: u32)
    requires p <= q < size
    ensures ToTablet(p, size) <= ToTablet(q, size) <= 0x7fff
    ensures ToTablet(0, size) == 0 && (size > 1 ==> ToTablet(size - 1, size) == 0x7fff)
  {
    if size > 1 {
      DivAtMost(p * ABS_MAX, q * ABS_MAX, size - 1);
      DivAtMost(q * ABS_MAX, (size - 1) * ABS_MAX, size - 1);
      DivExact(ABS_MAX, size - 1);
    }
  }

  /** The pixels keep an even pace over the tablet: two of them are as far apart on it as on the
      screen, in proportion, to within a place. */
  lemma TabletIsEven(p: u32, q: u32, size: u32)
    requires p <= q < size && size > 1
    ensures (q - p) * 0x7fff - (size - 1) * (ToTablet(q, size) - ToTablet(p, size)) < size - 1
    ensures (size - 1) * (ToTablet(q, size) - ToTablet(p, size)) - (q - p) * 0x7fff < size - 1
  {
    DivBounds(p * 0x7fff, size - 1);
    DivBounds(q * 0x7fff, size - 1);
    Spread(p, q, ToTablet(p, size), ToTablet(q, size), size - 1);
  }

  lemma Spread(p: nat, q: nat, a: nat, b: nat, c: nat)
    requires c * a <= p * 0x7fff < c * a + c && c * b <= q * 0x7fff < c * b + c
    ensures (q - p) * 0x7fff - c * (b - a) < c && c * (b - a) - (q - p) * 0x7fff < c
  {
    assert c * (b - a) == c * b - c * a;
  }

  /** Up to 32768 pixels no two share a place; beyond, the first two do. */
  lemma TabletTellsPixelsApart(size: u32)
    ensures (forall p: u32, q: u32 :: p < q < size ==> ToTablet(p, size) < ToTablet(q, size)) <==> size <= 0x8000
  {
    if size <= ABS_MAX + 1 {
      forall p: u32, q: u32 | p < q < size
        ensures ToTablet(p, size) < ToTablet(q, size)
      {
        StepIsSeen(p, q, size - 1);
      }
    } else {
      DivUnique(ABS_MAX, size - 1, 0);
      assert ToTablet(1, size) == 0 && ToTablet(0, size) == 0;
    }
  }

  lemma StepIsSeen(p: nat, q: nat, c: nat)
    requires 0 < c <= ABS_MAX && p < q
    ensures p * ABS_MAX / c < q * ABS_MAX / c
  {
    var a, b := p * ABS_MAX, q * ABS_MAX;
    assert a + c <= b;
    DivBounds(a, c);
    DivBounds(b, c);
    if b / c <= a / c {
      MulAtMost(b / c, a / c, c);
    }
  }
}
