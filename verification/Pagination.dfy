/** Java int arithmetic. */
module Int32 {
  const MIN := -0x8000_0000
  const MAX := 0x7fff_ffff

  predicate InRange(n: int) {
    MIN <= n <= MAX
  }

  /** Two's-complement wrap-around of a Java int. */
  function Wrap(n: int): (r: int)
    ensures InRange(r)
    ensures InRange(n) <==> r == n
  {
    (n - MIN) % 0x1_0000_0000 + MIN
  }
}

/** The few facts about products that the solver should not have to search for. */
module Products {
  lemma MulLe(a: int, b: int, c: int)
    requires a <= b && c >= 0
    ensures a * c <= b * c
  {
  }

  lemma DivBounds(n: int, d: int)
    requires d > 0
    ensures n / d * d <= n < n / d * d + d
  {
  }

  lemma RealProduct(a: int, b: int)
    ensures (a * b) as real == a as real * b as real
  {
  }

  lemma RealMulLt(a: real, b: real, c: real)
    requires c > 0.0
    ensures a < b <==> a * c < b * c
  {
  }
}

/** IEEE 754 binary64 values and rounding to nearest, as far as a quotient of two ints needs them. */
module Binary64 {
  import Int32
  import Products

  const TWO_53: int := 0x20_0000_0000_0000

  function Pow2(n: nat): real {
    if n == 0 then 1.0 else 2.0 * Pow2(n - 1)
  }

  /** A finite binary64 value: a 53-bit significand scaled by a power of two. */
  ghost predicate Representable(x: real) {
    exists m: int, e: nat :: -TWO_53 < m < TWO_53 && (IsScaledUp(x, m, e) || IsScaledDown(x, m, e))
  }

  predicate IsScaledUp(x: real, m: int, e: nat) {
    e <= 971 && IsProduct(x, m as real, Pow2(e))
  }

  predicate IsScaledDown(x: real, m: int, e: nat) {
    e <= 1074 && IsProduct(m as real, x, Pow2(e))
  }

  predicate IsProduct(x: real, a: real, b: real) {
    x == a * b
  }

  function Distance(x: real, y: real): real {
    if x <= y then y - x else x - y
  }

  /** Round to nearest (section 4.3.1 of IEEE 754), whatever way ties are broken. */
  ghost predicate RoundsTo(exact: real, rounded: real) {
    && Representable(rounded)
    && forall y: real :: Representable(y) ==> Distance(rounded, exact) <= Distance(y, exact)
  }

  /** Math.ceil. */
  function Ceil(x: real): int {
    -((-x).Floor)
  }

  datatype Double = Finite(x: real) | PlusInfinity | NotANumber

  /** The ceiling, narrowed to an int: too large values become the largest int, NaN becomes zero. */
  function IntOfCeil(d: Double): int {
    match d
    case Finite(x) => if Ceil(x) > Int32.MAX then Int32.MAX else if Ceil(x) < Int32.MIN then Int32.MIN else Ceil(x)
    case PlusInfinity => Int32.MAX
    case NotANumber => 0
  }

  lemma IntegersAreRepresentable(n: int)
    requires -TWO_53 < n < TWO_53
    ensures Representable(n as real)
  {
    assert IsScaledUp(n as real, n, 0);
  }

  lemma Pow2Values()
    ensures Pow2(10) == 1024.0 && Pow2(31) == 2147483648.0
  {
    assert Pow2(10) == 1024.0;
    assert Pow2(20) == 1024.0 * Pow2(10);
    assert Pow2(30) == 1024.0 * Pow2(20);
  }

  lemma ScaledIsRepresentable(m: int, e: nat, x: real)
    requires -TWO_53 < m < TWO_53 && e <= 1074 && IsProduct(m as real, x, Pow2(e))
    ensures Representable(x)
  {
    assert IsScaledDown(x, m, e);
  }

  // ---------------------------------------------------------------- a nearest value exists

  function WholePow2(n: nat): nat {
    if n == 0 then 1 else 2 * WholePow2(n - 1)
  }

  lemma {:induction false} Pow2IsWhole(n: nat)
    ensures Pow2(n) == WholePow2(n) as real && Pow2(n) >= 1.0
  {
    if n > 0 {
      Pow2IsWhole(n - 1);
    }
  }

  lemma DoubledProduct(t: real, x: real, p: real)
    requires IsProduct(t, x, p)
    ensures IsProduct(2.0 * t, x, 2.0 * p)
  {
  }

  lemma SameProduct(a: real, b: real, x: real, p: real)
    requires IsProduct(a, x, p) && IsProduct(b, x, p)
    ensures a == b
  {
  }

  lemma {:induction false} Pow2Adds(a: nat, b: nat)
    ensures IsProduct(Pow2(a + b), Pow2(a), Pow2(b))
    decreases b
  {
    if b == 0 {
      assert IsProduct(Pow2(a), Pow2(a), 1.0);
    } else {
      Pow2Adds(a, b - 1);
      DoubledProduct(Pow2(a + b - 1), Pow2(a), Pow2(b - 1));
    }
  }

  lemma Pow2Of(a: nat, b: nat, x: real, y: real)
    requires Pow2(a) == x && Pow2(b) == y
    ensures Pow2(a + b) == x * y
  {
    Pow2Adds(a, b);
    assert IsProduct(Pow2(a + b), x, y);
  }

  /** A scale that brings the value between half the significand bound and the bound itself. */
  lemma {:induction false} FindScale(q: real, from: nat, t: real, limit: real) returns (g: nat, scaled: real)
    requires from <= 84 && IsProduct(t, q, Pow2(from)) && IsProduct(limit, q, Pow2(84))
    requires t < TWO_53 as real <= limit
    ensures g < 84 && IsProduct(scaled, q, Pow2(g)) && TWO_53 as real <= 2.0 * scaled && scaled < TWO_53 as real
    decreases 84 - from
  {
    if TWO_53 as real <= 2.0 * t {
      g, scaled := from, t;
      if from == 84 {
        SameProduct(t, limit, q, Pow2(84));
      }
    } else {
      DoubledProduct(t, q, Pow2(from));
      if from == 84 {
        SameProduct(t, limit, q, Pow2(84));
        assert false;
      }
      g, scaled := FindScale(q, from + 1, 2.0 * t, limit);
    }
  }

  /** A whole number nearest to t. */
  predicate IsNearestWhole(n: int, t: real) {
    t - 0.5 <= n as real <= t + 0.5
  }

  lemma WholesApart(n: int, m: int)
    ensures n < m ==> n as real <= m as real - 1.0
  {
  }

  lemma NoCloser(n: real, m: real, t: real)
    requires t - 0.5 <= n <= t + 0.5
    requires m == n || m <= n - 1.0 || n <= m - 1.0
    ensures Distance(n, t) <= Distance(m, t)
  {
  }

  lemma NearestAmongWholes(n: int, m: int, t: real)
    requires IsNearestWhole(n, t)
    ensures Distance(n as real, t) <= Distance(m as real, t)
  {
    WholesApart(n, m);
    WholesApart(m, n);
    NoCloser(n as real, m as real, t);
  }

  lemma ProductOfWholes(v: real, a: int, b: int, x: real, y: real)
    requires IsProduct(v, x, y) && x == a as real && y == b as real
    ensures v == (a * b) as real
  {
    Products.RealProduct(a, b);
  }

  lemma Regrouped(v: real, y: real, k: real, p: real, q: real, pq: real)
    requires IsProduct(y, k, p) && IsProduct(v, y, q) && IsProduct(pq, p, q)
    ensures IsProduct(v, k, pq)
  {
  }

  lemma RegroupedDown(v: real, y: real, k: real, p: real, w: real, q: real)
    requires IsProduct(k, y, p) && IsProduct(v, y, q) && IsProduct(q, p, w)
    ensures IsProduct(v, k, w)
  {
  }

  /** Scaled by a power of two, a binary64 value is whole or lies below half the significand bound. */
  lemma ScaledValue(y: real, g: nat) returns (v: real, m: int)
    requires Representable(y)
    ensures IsProduct(v, y, Pow2(g)) && (v == m as real || 2.0 * v < TWO_53 as real)
  {
    var s := Pow2(g);
    v := y * s;
    assert IsProduct(v, y, s);
    var k: int, e: nat :| -TWO_53 < k < TWO_53 && (IsScaledUp(y, k, e) || IsScaledDown(y, k, e));
    if IsScaledUp(y, k, e) {
      m := ScaledUpIsWhole(v, y, k, e, g);
    } else if e <= g {
      m := ScaledDownIsWhole(v, y, k, e, g);
    } else {
      ScaledDownIsSmall(v, y, k, e, g);
      m := 0;
    }
  }

  lemma ScaledUpIsWhole(v: real, y: real, k: int, e: nat, g: nat) returns (m: int)
    requires IsProduct(v, y, Pow2(g)) && IsProduct(y, k as real, Pow2(e))
    ensures v == m as real
  {
    Pow2Adds(e, g);
    Pow2IsWhole(e + g);
    Regrouped(v, y, k as real, Pow2(e), Pow2(g), Pow2(e + g));
    ProductOfWholes(v, k, WholePow2(e + g), k as real, Pow2(e + g));
    m := k * WholePow2(e + g);
  }

  lemma ScaledDownIsWhole(v: real, y: real, k: int, e: nat, g: nat) returns (m: int)
    requires e <= g && IsProduct(v, y, Pow2(g)) && IsProduct(k as real, y, Pow2(e))
    ensures v == m as real
  {
    Pow2Adds(e, g - e);
    Pow2IsWhole(g - e);
    RegroupedDown(v, y, k as real, Pow2(e), Pow2(g - e), Pow2(g));
    ProductOfWholes(v, k, WholePow2(g - e), k as real, Pow2(g - e));
    m := k * WholePow2(g - e);
  }

  lemma SmallFactor(v: real, k: real, y: real, p: real, h: real, ph: real, bound: real)
    requires IsProduct(v, y, p) && IsProduct(k, y, ph) && IsProduct(ph, p, h)
    requires h >= 2.0 && k < bound && bound > 0.0
    ensures 2.0 * v < bound
  {
    assert IsProduct(k, v, h);
    if v > 0.0 {
      assert v * h >= v * 2.0;
    }
  }

  lemma ScaledDownIsSmall(v: real, y: real, k: int, e: nat, g: nat)
    requires g < e && k < TWO_53 && IsProduct(v, y, Pow2(g)) && IsProduct(k as real, y, Pow2(e))
    ensures 2.0 * v < TWO_53 as real
  {
    Pow2Adds(g, e - g);
    Pow2IsWhole(e - g - 1);
    SmallFactor(v, k as real, y, Pow2(g), Pow2(e - g), Pow2(e), TWO_53 as real);
  }

  /** Distance(a, b) times s. */
  lemma DistanceScales(a: real, b: real, s: real, sa: real, sb: real)
    requires s > 0.0 && IsProduct(sa, a, s) && IsProduct(sb, b, s)
    ensures IsProduct(Distance(sa, sb), Distance(a, b), s)
  {
    Products.RealMulLt(a, b, s);
    assert (b - a) * s == b * s - a * s;
  }

  lemma StillGreater(x: real, y: real, s: real, sx: real, sy: real)
    requires s > 0.0 && IsProduct(sx, x, s) && IsProduct(sy, y, s) && sy <= sx
    ensures y <= x
  {
    Products.RealMulLt(x, y, s);
  }

  lemma CloserOnceScaled(a: real, y: real, q: real, s: real, sa: real, sy: real, sq: real)
    requires s > 0.0 && IsProduct(sa, a, s) && IsProduct(sy, y, s) && IsProduct(sq, q, s)
    requires Distance(sa, sq) <= Distance(sy, sq)
    ensures Distance(a, q) <= Distance(y, q)
  {
    DistanceScales(a, q, s, sa, sq);
    DistanceScales(y, q, s, sy, sq);
    StillGreater(Distance(y, q), Distance(a, q), s, Distance(sy, sq), Distance(sa, sq));
  }

  lemma HalvedProduct(n: real, r: real, p: real)
    requires IsProduct(n, r, 2.0 * p)
    ensures IsProduct(n / 2.0, r, p)
  {
  }

  lemma WholeIsRepresentable(n: int, g: nat, r: real)
    requires 0 <= n <= TWO_53 && 1 <= g <= 84 && IsProduct(n as real, r, Pow2(g))
    ensures Representable(r)
  {
    if n == TWO_53 {
      HalvedProduct(n as real, r, Pow2(g - 1));
      ScaledIsRepresentable(TWO_53 / 2, g - 1, r);
    } else {
      ScaledIsRepresentable(n, g, r);
    }
  }

  lemma ClosestOnceScaled(t: real, n: int, m: int, v: real)
    requires TWO_53 as real <= 2.0 * t && IsNearestWhole(n, t)
    requires v == m as real || 2.0 * v < TWO_53 as real
    ensures Distance(n as real, t) <= Distance(v, t)
  {
    NearestAmongWholes(n, m, t);
    NearestAmongWholes(n, TWO_53 / 2, t);
  }

  lemma ClosestOfAll(q: real, t: real, n: int, g: nat, r: real, y: real)
    requires IsProduct(t, q, Pow2(g)) && TWO_53 as real <= 2.0 * t
    requires IsNearestWhole(n, t) && IsProduct(n as real, r, Pow2(g)) && Representable(y)
    ensures Distance(r, q) <= Distance(y, q)
  {
    Pow2IsWhole(g);
    var v, m := ScaledValue(y, g);
    ClosestOnceScaled(t, n, m, v);
    CloserOnceScaled(r, y, q, Pow2(g), n as real, v, t);
  }

  lemma ScaleOf(q: real) returns (g: nat, t: real)
    requires 1.0 <= q * 2147483648.0 && q < 2147483648.0
    ensures 1 <= g < 84 && IsProduct(t, q, Pow2(g)) && TWO_53 as real <= 2.0 * t && t < TWO_53 as real
  {
    Pow2Values();
    Pow2Of(10, 10, 1024.0, 1024.0);
    Pow2Of(20, 2, 1048576.0, 4.0);
    Pow2Of(31, 22, 2147483648.0, 4194304.0);
    var limit := q * 2147483648.0 * TWO_53 as real;
    Pow2Of(31, 53, 2147483648.0, TWO_53 as real);
    assert IsProduct(limit, q, Pow2(84));
    assert IsProduct(q, q, Pow2(0));
    g, t := FindScale(q, 0, q, limit);
    if g == 0 {
      SameProduct(t, q, q, Pow2(0));
    }
  }

  lemma Divided(n: real, p: real) returns (r: real)
    requires p > 0.0
    ensures IsProduct(n, r, p)
  {
    r := n / p;
  }

  /** Every value from 2^-31 up to 2^31 has a nearest binary64 value. */
  lemma NearestExists(q: real) returns (r: real)
    requires 1.0 <= q * 2147483648.0 && q < 2147483648.0
    ensures RoundsTo(q, r)
  {
    var g, t := ScaleOf(q);
    var n := (t + 0.5).Floor;
    Pow2IsWhole(g);
    r := Divided(n as real, Pow2(g));
    WholeIsRepresentable(n, g, r);
    forall y: real | Representable(y)
      ensures Distance(r, q) <= Distance(y, q)
    {
      ClosestOfAll(q, t, n, g, r, y);
    }
  }
}

/** The window a page selects and the page counts reported with it. */
module Pagination {
  import opened Binary64
  import Decoder = QueryDecoder
  import opened Json
  import opened Products
  import Int32

  /** The number of pages in exact integer arithmetic. */
  function PageCount(hits: nat, size: nat): nat
    requires size > 0
  {
    (hits + size - 1) / size
  }

  lemma PageCountBounds(hits: nat, size: nat)
    requires size > 0
    ensures PageCount(hits, size) * size >= hits
    ensures hits > 0 ==> PageCount(hits, size) >= 1 && (PageCount(hits, size) - 1) * size < hits
    ensures hits == 0 ==> PageCount(hits, size) == 0
  {
    DivBounds(hits + size - 1, size);
  }

  lemma PageCountAtMostHits(hits: nat, size: nat)
    requires size > 0
    ensures PageCount(hits, size) <= hits
  {
    PageCountBounds(hits, size);
    if hits > 0 {
      MulLe(1, size, PageCount(hits, size) - 1);
    }
  }

  lemma QuotientTimesSize(hits: nat, size: nat)
    requires size > 0
    ensures hits as real / size as real * size as real == hits as real
  {
  }

  /** A whole number compares with the quotient as its product with the size compares with the hits. */
  lemma QuotientCompares(whole: int, hits: nat, size: nat)
    requires size > 0
    ensures whole as real < hits as real / size as real <==> whole * size < hits
    ensures hits as real / size as real < whole as real <==> hits < whole * size
  {
    QuotientTimesSize(hits, size);
    RealProduct(whole, size);
    RealMulLt(whole as real, hits as real / size as real, size as real);
    RealMulLt(hits as real / size as real, whole as real, size as real);
  }

  /** The quotient exceeds the whole number below it by at least 1/size. */
  lemma Gap(whole: nat, hits: nat, size: nat)
    requires size > 0 && whole * size < hits
    ensures hits as real / size as real - whole as real >= 1.0 / size as real
  {
    var q, s := hits as real / size as real, size as real;
    QuotientTimesSize(hits, size);
    RealProduct(whole, size);
    assert q * s - whole as real * s >= 1.0;
    assert (q - whole as real) * s == q * s - whole as real * s;
    assert 1.0 / s * s == 1.0;
    RealMulLt(q - whole as real, 1.0 / s, s);
  }

  lemma Reciprocals(a: nat, b: nat)
    requires 0 < a < b
    ensures 1.0 / b as real < 1.0 / a as real
  {
    var x, y := 1.0 / a as real, 1.0 / b as real;
    assert x * a as real == 1.0 && y * b as real == 1.0;
    RealMulLt(a as real, b as real, y);
    RealMulLt(y, x, a as real);
  }

  lemma SmallSize(whole: nat, hits: nat, size: nat)
    requires hits < 0x8000_0000 && whole * size < hits && whole > 0x20_0000
    ensures size < 1024
  {
    if size >= 1024 {
      MulLe(0x20_0001, whole, size);
      MulLe(1024, size, 0x20_0001);
    }
  }

  lemma ShiftedIsRepresentable(whole: nat, scale: nat, e: nat)
    requires scale > 0 && e <= 1074 && Pow2(e) == scale as real && whole * scale + 1 < TWO_53
    ensures Representable(whole as real + 1.0 / scale as real)
  {
    var y := whole as real + 1.0 / scale as real;
    RealProduct(whole, scale);
    assert 1.0 / scale as real * scale as real == 1.0;
    assert y * scale as real == whole as real * scale as real + 1.0;
    ScaledIsRepresentable(whole * scale + 1, e, y);
  }

  /** Just above a whole number below the quotient lies a binary64 value that is closer to the quotient. */
  lemma CloserValue(whole: nat, hits: nat, size: nat) returns (y: real)
    requires hits < 0x8000_0000 && 0 < size < 0x8000_0000
    requires whole * size < hits
    ensures Representable(y)
    ensures whole as real < y < hits as real / size as real
  {
    Pow2Values();
    Gap(whole, hits, size);
    if whole <= 0x20_0000 {
      ShiftedIsRepresentable(whole, 0x8000_0000, 31);
      Reciprocals(size, 0x8000_0000);
      y := whole as real + 1.0 / 0x8000_0000 as real;
    } else {
      SmallSize(whole, hits, size);
      MulLe(1, size, whole);
      ShiftedIsRepresentable(whole, 1024, 10);
      Reciprocals(size, 1024);
      y := whole as real + 1.0 / 1024 as real;
    }
  }

  /** Rounding stays between two representable values around the exact one, and off the lower one
      when a representable value lies strictly between. */
  lemma RoundedBetween(lo: real, y: real, exact: real, hi: real, rounded: real)
    requires Representable(y) && Representable(hi) && RoundsTo(exact, rounded)
    requires lo < y < exact <= hi
    ensures lo < rounded <= hi
  {
    assert Distance(rounded, exact) <= Distance(y, exact);
    assert Distance(rounded, exact) <= Distance(hi, exact);
  }

  lemma CeilBetween(x: real, k: int)
    requires (k - 1) as real < x <= k as real
    ensures Ceil(x) == k
  {
  }

  /** The page count computed in binary64 is exact: however the quotient is rounded to nearest, its
      ceiling is the integer ceiling. The relative error bound alone would not do: a whole quotient is
      exact because it is representable, any other because a closer value lies above the whole number below. */
  lemma FloatingPageCountIsExact(hits: nat, size: nat, rounded: real)
    requires hits < 0x8000_0000 && 0 < size < 0x8000_0000
    requires RoundsTo(hits as real / size as real, rounded)
    ensures Ceil(rounded) == PageCount(hits, size)
    ensures Int32.InRange(Ceil(rounded))
  {
    var q, k := hits as real / size as real, PageCount(hits, size);
    PageCountBounds(hits, size);
    PageCountAtMostHits(hits, size);
    IntegersAreRepresentable(k);
    if hits == 0 {
      QuotientCompares(0, hits, size);
      assert Distance(rounded, q) <= Distance(k as real, q);
      CeilBetween(rounded, 0);
    } else {
      QuotientCompares(k, hits, size);
      var y := CloserValue(k - 1, hits, size);
      RoundedBetween((k - 1) as real, y, q, k as real, rounded);
      CeilBetween(rounded, k);
    }
  }

  /** Every quotient of a hit count and a page size has a nearest binary64 value, so the page count is
      computed from one. */
  lemma QuotientRounds(hits: nat, size: nat) returns (rounded: real)
    requires hits < 0x8000_0000 && 0 < size < 0x8000_0000
    ensures RoundsTo(hits as real / size as real, rounded)
  {
    var q := hits as real / size as real;
    Pow2Values();
    QuotientTimesSize(hits, size);
    if hits == 0 {
      QuotientCompares(0, hits, size);
      IntegersAreRepresentable(0);
      rounded := 0.0;
    } else {
      QuotientCompares(0, hits, size);
      AtLeast(q, size as real, 2147483648.0);
      QuotientCompares(0x8000_0000, hits, size);
      MulLe(1, size, 0x8000_0000);
      rounded := NearestExists(q);
    }
  }

  lemma AtLeast(q: real, s: real, bound: real)
    requires q > 0.0 && s <= bound && q * s >= 1.0
    ensures q * bound >= 1.0
  {
    assert q * bound == q * s + q * (bound - s);
  }

  // ---------------------------------------------------------------- windows

  function Min(a: int, b: int): int {
    if a <= b then a else b
  }

  /** What the store returns for an offset and a size. */
  function Window<T>(hits: seq<T>, offset: nat, size: nat): seq<T> {
    hits[Min(offset, |hits|)..Min(offset + size, |hits|)]
  }

  function Page<T>(hits: seq<T>, page: nat, size: nat): seq<T>
    requires page >= 1
  {
    Window(hits, (page - 1) * size, size)
  }

  function Pages<T>(hits: seq<T>, count: nat, size: nat): seq<T> {
    if count == 0 then [] else Pages(hits, count - 1, size) + Page(hits, count, size)
  }

  lemma WindowExtendsPrefix<T>(hits: seq<T>, offset: nat, size: nat)
    ensures hits[..Min(offset, |hits|)] + Window(hits, offset, size) == hits[..Min(offset + size, |hits|)]
  {
  }

  lemma {:induction false} PagesArePrefix<T>(hits: seq<T>, count: nat, size: nat)
    ensures Pages(hits, count, size) == hits[..Min(count * size, |hits|)]
  {
    if count == 0 {
    } else {
      PagesArePrefix(hits, count - 1, size);
      MulLe(0, count - 1, size);
      WindowExtendsPrefix(hits, (count - 1) * size, size);
      assert count * size == (count - 1) * size + size;
    }
  }

  /** The pages from 1 to the last one, put together, are the whole hit list in order. */
  lemma PagesPartitionHits<T>(hits: seq<T>, size: nat)
    requires size > 0
    ensures Pages(hits, PageCount(|hits|, size), size) == hits
  {
    PagesArePrefix(hits, PageCount(|hits|, size), size);
    PageCountBounds(|hits|, size);
  }

  /** A hit is on exactly one page. */
  lemma HitIsOnOnePage(total: nat, size: nat, i: nat)
    requires size > 0 && i < total
    ensures 1 <= i / size + 1 <= PageCount(total, size)
    ensures forall p: nat | p >= 1 :: (p - 1) * size <= i < p * size <==> p == i / size + 1
  {
    DivBounds(i, size);
    var page := i / size + 1;
    NextPageExactly(total, size, page);
    PageCountBounds(total, size);
    if PageCount(total, size) < page {
      MulLe(PageCount(total, size), page - 1, size);
    }
    forall p: nat | p >= 1
      ensures (p - 1) * size <= i < p * size <==> p == page
    {
      if p < page {
        MulLe(p, page - 1, size);
      } else if p > page {
        MulLe(page, p - 1, size);
      }
    }
  }

  /** hasNext tells exactly whether a hit lies beyond the window, and the last page is not empty. */
  lemma NextPageExactly(total: nat, size: nat, page: nat)
    requires size > 0 && page >= 1
    ensures page < PageCount(total, size) <==> page * size < total
    ensures page == PageCount(total, size) ==> (page - 1) * size < total <= page * size
  {
    PageCountBounds(total, size);
    var count := PageCount(total, size);
    if page < count {
      MulLe(page, count - 1, size);
    } else {
      MulLe(count, page, size);
    }
  }

  /** Within the documented window the int arithmetic of the offset is exact. */
  lemma OffsetDoesNotWrap(page: int, size: int)
    requires page >= 1 && size >= 1 && (page - 1) * size + size <= 10000
    ensures Decoder.Offset(page, size) == (page - 1) * size
    ensures Int32.InRange((page - 1) * size + size)
  {
    MulLe(1, size, page - 1);
  }

  /** In general the offset is exact precisely when the product fits an int. */
  lemma OffsetExactly(page: int, size: int)
    requires Int32.InRange(page) && page >= 1
    ensures Decoder.Offset(page, size) == (page - 1) * size <==> Int32.InRange((page - 1) * size)
  {
  }

  const DEFAULT_SIZE := 100

  /** What the store returns for a decoded search: its window starts at the offset, or at the first hit. */
  function Fetched<T>(hits: seq<T>, q: Decoder.SearchQuery): seq<T>
    requires q.offset.Some? ==> q.offset.value >= 0
    requires q.limit.Some? ==> q.limit.value >= 0
  {
    Window(hits, if q.offset.Some? then q.offset.value else 0, if q.limit.Some? then q.limit.value else DEFAULT_SIZE)
  }

  /** Within the documented window a decoded search fetches exactly the page it asks for, the first one
      when it names none. */
  lemma DecodedSearchFetchesPage<T>(r: Decoder.SearchRequest, hits: seq<T>, size: nat, page: nat)
    requires Decoder.Decode(r).Ok? && Decoder.Decode(r).value.Search?
    requires r.size == Some(size) && page == (if r.page.Some? then r.page.value else 1)
    requires page >= 1 && size >= 1 && (page - 1) * size + size <= 10000
    ensures var q := Decoder.Decode(r).value.query;
            && q.limit == Some(size) && (q.offset.Some? ==> q.offset.value >= 0)
            && Fetched(hits, q) == Page(hits, page, size)
  {
    OffsetDoesNotWrap(page, size);
    MulLe(0, page - 1, size);
  }

  /** A search decoded without a size fetches the first hundred hits, whatever page it names. */
  lemma UnsizedSearchFetchesHundred<T>(r: Decoder.SearchRequest, hits: seq<T>)
    requires Decoder.Decode(r).Ok? && Decoder.Decode(r).value.Search? && r.size.None?
    ensures var q := Decoder.Decode(r).value.query;
            && q.limit == None && q.offset == None
            && Fetched(hits, q) == Page(hits, 1, 100)
  {
  }

  /** An offset beyond the int range wraps around to a negative one. */
  lemma OffsetWraps()
    ensures Decoder.Offset(0x4000_0001, 2) == Int32.MIN
  {
  }

  datatype PaginationInfo = PaginationInfo(
    page: int, size: int, totalCount: int, totalPages: int, hasNext: bool, hasPrevious: bool)

  /** The binary64 quotient of two ints; dividing by zero raises no exception. */
  ghost predicate IsQuotient(hits: nat, size: nat, q: Double) {
    if size > 0 then q.Finite? && RoundsTo(hits as real / size as real, q.x)
    else q == if hits > 0 then PlusInfinity else NotANumber
  }

  /** The search response with its page counts. */
  class ResponseModel<T> {
    var totalHits: nat
    var responses: seq<T>
    var paginationInfo: PaginationInfo

    /** The quotient arrives rounded; no other property of the division is used. A size of zero reports the
        largest int, or no page when there is no hit. */
    constructor (responses: seq<T>, totalHits: nat, size: nat, page: int, quotient: Double)
      requires totalHits < 0x8000_0000 && size < 0x8000_0000
      requires IsQuotient(totalHits, size, quotient)
      ensures this.totalHits == totalHits && this.responses == responses
      ensures paginationInfo.page == page && paginationInfo.size == size && paginationInfo.totalCount == totalHits
      ensures size > 0 ==> paginationInfo.totalPages == PageCount(totalHits, size)
      ensures size == 0 ==> paginationInfo.totalPages == if totalHits > 0 then Int32.MAX else 0
      ensures page >= 1 && size > 0 ==> (paginationInfo.hasNext <==> page * size < totalHits)
      ensures paginationInfo.hasNext <==> page < paginationInfo.totalPages
      ensures paginationInfo.hasPrevious <==> page > 1
    {
      this.totalHits := totalHits;
      var copied: seq<T> := [];
      for i := 0 to |responses|
        invariant copied == responses[..i]
      {
        copied := copied + [responses[i]];
      }
      assert responses[..|responses|] == responses;
      this.responses := copied;
      if size > 0 {
        FloatingPageCountIsExact(totalHits, size, quotient.x);
        if page >= 1 {
          NextPageExactly(totalHits, size, page);
        }
      }
      var totalPages := IntOfCeil(quotient);
      this.paginationInfo := PaginationInfo(page, size, totalHits, totalPages, page < totalPages, page > 1);
    }
  }
}
