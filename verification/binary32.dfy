/**
 Non-negative binary32 arithmetic for the rotation angle (ROTATE_DELTA and m_rotate in gles_engine.cpp).

 The angle is always a whole number of halves, and Round works on halves. What binary32 is, is said on a finer
 grid: 2^g points to a half, for any g. With g == 148 a point is 2^-149, the smallest subnormal, every finite
 binary32 number is a whole number of points, and the significand scales run up to g + 105 == 253.
*/
module Binary32 {
  /** Significands have 24 bits: HIDDEN <= m < LIMIT for a normal number. */
  const HIDDEN := 0x80_0000
  const LIMIT := 0x100_0000
  /** From one half to the last place of the largest binade: 2^104 is 105 doublings of 2^-1. */
  const SPAN: nat := 105

  function Pow2(n: nat): (r: nat)
    ensures r >= 1
  {
    if n == 0 then 1 else 2 * Pow2(n - 1)
  }

  ghost predicate HasForm(g: nat, v: nat, m: nat, f: nat) {
    m < LIMIT && f <= g + SPAN && v == m * Pow2(f)
  }

  ghost predicate Representable(g: nat, v: nat) {
    exists m: nat, f: nat :: HasForm(g, v, m, f)
  }

  /** The canonical significand of v (hidden bit set, or least scale) has an even last digit. */
  ghost predicate EvenSignificand(g: nat, v: nat) {
    exists m: nat, f: nat :: HasForm(g, v, m, f) && (m >= HIDDEN || f == 0) && m % 2 == 0
  }

  function Distance(a: nat, b: nat): nat {
    if a <= b then b - a else a - b
  }

  /** roundTiesToEven as section 4.3.1 of IEEE 754-2008 words it: a nearest representable number, and the one
      with an even last digit when another representable number is equally near. */
  ghost predicate RoundsTo(g: nat, n: nat, v: nat) {
    && Representable(g, v)
    && (forall w: nat :: Representable(g, w) ==> Distance(n, v) <= Distance(n, w))
    && (forall w: nat :: Representable(g, w) && w != v && Distance(n, w) == Distance(n, v) ==> EvenSignificand(g, v))
  }

  /** How many low bits of n lie below the last place of a 24-bit significand. */
  function Shift(n: nat): (s: nat)
    ensures n < LIMIT * Pow2(s)
    ensures s > 0 ==> n >= HIDDEN * Pow2(s)
  {
    if n < LIMIT then 0 else
      var s := 1 + Shift(n / 2);
      assert Pow2(s) == 2 * Pow2(s - 1);
      s
  }

  /** Rounds up when the dropped part r is over half a unit, or exactly half with an odd quotient. */
  predicate GoesUp(q: nat, r: nat, unit: nat) {
    2 * r > unit || (2 * r == unit && q % 2 == 1)
  }

  /** The multiple that Round picks keeps to 24 bits, or spills into the next binade. */
  function Picked(q: nat, r: nat, unit: nat): (k: nat)
    ensures q <= k <= q + 1
    ensures k > q ==> r > 0 || unit == 0
    ensures 2 * r == unit ==> k % 2 == 0
  {
    q + if GoesUp(q, r, unit) then 1 else 0
  }

  function Round(n: nat): nat {
    var unit := Pow2(Shift(n));
    Picked(n / unit, n % unit, unit) * unit
  }

  // ---------------------------------------------------------------------------------------------------------
  // Products and powers

  lemma MulMonotone(a: nat, b: nat, c: nat)
    requires a <= b
    ensures a * c <= b * c
  {}

  lemma {:induction false} Pow2Splits(a: nat, b: nat)
    requires a <= b
    ensures Pow2(b) == Pow2(b - a) * Pow2(a)
  {
    if a > 0 {
      Pow2Splits(a - 1, b - 1);
      TwiceProduct(Pow2(b - a), Pow2(a - 1));
    }
  }

  lemma TwiceProduct(x: nat, y: nat)
    ensures 2 * (x * y) == x * (2 * y)
  {}

  lemma DoublingStep(s: nat)
    ensures LIMIT * Pow2(s) == HIDDEN * Pow2(s + 1)
  {}

  /** Scales compare as the powers do. */
  lemma Pow2Order(a: nat, b: nat)
    ensures a <= b ==> Pow2(a) <= Pow2(b)
  {
    if a <= b {
      Pow2Splits(a, b);
      MulMonotone(1, Pow2(b - a), Pow2(a));
    }
  }

  lemma QuotientUnique(n: nat, q: nat, r: nat, unit: nat)
    requires n == q * unit + r && r < unit
    ensures n / unit == q && n % unit == r
  {
    var a, b := n / unit, n % unit;
    assert n == a * unit + b;
    if a < q { MulMonotone(a + 1, q, unit); }
    if a > q { MulMonotone(q + 1, a, unit); }
  }

  /** Shift is determined by the two bounds it promises. */
  lemma ShiftIs(n: nat, s: nat)
    requires HIDDEN * Pow2(s) <= n < LIMIT * Pow2(s)
    ensures Shift(n) == s
  {
    var t := Shift(n);
    DoublingStep(t);
    DoublingStep(s);
    Pow2Order(t + 1, s);
    Pow2Order(s + 1, t);
  }

  // ---------------------------------------------------------------------------------------------------------
  // Round is roundTiesToEven

  /** A representable number is either below the binade of scale s or a whole number of units 2^s. */
  lemma OnGridOrBelow(g: nat, w: nat, s: nat)
    requires Representable(g, w)
    ensures w < HIDDEN * Pow2(s) || exists k: nat :: w == k * Pow2(s)
  {
    var m: nat, f: nat :| HasForm(g, w, m, f);
    if f >= s { OnGrid(m, f, s); } else { Below(m, f, s); }
  }

  lemma OnGrid(m: nat, f: nat, s: nat)
    requires f >= s
    ensures exists k: nat :: m * Pow2(f) == k * Pow2(s)
  {
    Pow2Splits(s, f);
    Associate(m, Pow2(f - s), Pow2(s));
    var k := m * Pow2(f - s);
    assert m * Pow2(f) == k * Pow2(s);
  }

  lemma Below(m: nat, f: nat, s: nat)
    requires m < LIMIT && f < s
    ensures m * Pow2(f) < HIDDEN * Pow2(s)
  {
    DoublingStep(f);
    Pow2Order(f + 1, s);
    MulMonotone(m, LIMIT - 1, Pow2(f));
  }

  lemma Associate(a: nat, b: nat, c: nat)
    ensures a * (b * c) == (a * b) * c
  {}

  /** n is q units and r, where a unit is the last place of a 24-bit significand. */
  ghost predicate Split(n: nat, s: nat, q: nat, r: nat) {
    s == Shift(n) && n == q * Pow2(s) + r && r < Pow2(s)
  }

  lemma SplitOf(n: nat)
    ensures Split(n, Shift(n), n / Pow2(Shift(n)), n % Pow2(Shift(n)))
  {
    DivMod(n, Pow2(Shift(n)));
  }

  lemma DivMod(n: nat, unit: nat)
    requires unit > 0
    ensures n == (n / unit) * unit + n % unit && 0 <= n % unit < unit
  {}

  lemma SignificandSize(n: nat, s: nat, q: nat, r: nat)
    requires Split(n, s, q, r)
    ensures q < LIMIT && (s > 0 ==> q >= HIDDEN)
  {
    if q >= LIMIT { MulMonotone(LIMIT, q, Pow2(s)); }
    if s > 0 && q < HIDDEN { MulMonotone(q + 1, HIDDEN, Pow2(s)); }
  }

  lemma RoundOfSplit(n: nat, s: nat, q: nat, r: nat)
    requires Split(n, s, q, r)
    ensures Round(n) == Picked(q, r, Pow2(s)) * Pow2(s)
  {
    QuotientUnique(n, q, r, Pow2(s));
  }

  lemma NothingBetween(g: nat, n: nat, s: nat, q: nat, r: nat, w: nat)
    requires Split(n, s, q, r)
    requires Representable(g, w)
    ensures w <= q * Pow2(s) || w >= (q + 1) * Pow2(s)
  {
    SignificandSize(n, s, q, r);
    if s > 0 {
      OnGridOrBelow(g, w, s);
      if w < HIDDEN * Pow2(s) {
        MulMonotone(HIDDEN, q, Pow2(s));
      } else {
        var k: nat :| w == k * Pow2(s);
        if k <= q { MulMonotone(k, q, Pow2(s)); } else { MulMonotone(q + 1, k, Pow2(s)); }
      }
    }
  }

  /** Of the values outside the open interval from q to q + 1 units the rounded one is nearest to q units and r,
      and only a tie leaves another one equally near. */
  lemma RoundNearest(g: nat, n: nat, s: nat, q: nat, r: nat, w: nat)
    requires Split(n, s, q, r)
    requires Representable(g, w)
    ensures Distance(n, Round(n)) <= Distance(n, w)
    ensures w != Round(n) && Distance(n, w) == Distance(n, Round(n)) ==> 2 * r == Pow2(s)
  {
    NothingBetween(g, n, s, q, r, w);
    RoundOfSplit(n, s, q, r);
    AddOne(q, Pow2(s));
    NearestMultiple(q * Pow2(s), r, Pow2(s), GoesUp(q, r, Pow2(s)), w);
  }

  lemma AddOne(q: nat, unit: nat)
    ensures (q + 1) * unit == q * unit + unit
    ensures (q + 0) * unit == q * unit
  {}

  lemma NearestMultiple(base: nat, r: nat, unit: nat, up: bool, w: nat)
    requires r < unit
    requires if up then 2 * r >= unit else 2 * r <= unit
    requires w <= base || w >= base + unit
    ensures var v := if up then base + unit else base;
            var n := base + r;
            && Distance(n, v) <= Distance(n, w)
            && (w != v && Distance(n, w) == Distance(n, v) ==> 2 * r == unit)
  {}

  lemma ScaleInRange(n: nat, s: nat, q: nat, r: nat, top: nat)
    requires Split(n, s, q, r)
    requires n <= (LIMIT - 1) * Pow2(top)
    ensures s <= top
    ensures s == top && q == LIMIT - 1 ==> r == 0
  {
    DoublingStep(top);
    Pow2Order(top + 1, s);
  }

  /** The result is a binary32 number, with an even last digit when n lies half-way. */
  lemma RoundRepresentable(g: nat, n: nat, s: nat, q: nat, r: nat)
    requires Split(n, s, q, r)
    requires n <= (LIMIT - 1) * Pow2(g + SPAN)
    ensures Representable(g, Round(n))
    ensures 2 * r == Pow2(s) ==> EvenSignificand(g, Round(n))
  {
    ScaleInRange(n, s, q, r, g + SPAN);
    SignificandSize(n, s, q, r);
    RoundOfSplit(n, s, q, r);
    FormOf(g, Round(n), Picked(q, r, Pow2(s)), s);
  }

  lemma FormOf(g: nat, v: nat, k: nat, s: nat)
    requires v == k * Pow2(s) && s <= g + SPAN
    requires k < LIMIT || (k == LIMIT && s < g + SPAN)
    requires s > 0 ==> k >= HIDDEN
    ensures Representable(g, v)
    ensures k % 2 == 0 ==> EvenSignificand(g, v)
  {
    if k == LIMIT {
      DoublingStep(s);
      assert HasForm(g, v, HIDDEN, s + 1);
    } else {
      assert HasForm(g, v, k, s);
    }
  }

  /** For every exact result up to the largest finite number. */
  lemma RoundIsTiesToEven(g: nat, n: nat)
    requires n <= (LIMIT - 1) * Pow2(g + SPAN)
    ensures RoundsTo(g, n, Round(n))
  {
    var s := Shift(n);
    var q, r := n / Pow2(s), n % Pow2(s);
    SplitOf(n);
    RoundRepresentable(g, n, s, q, r);
    forall w: nat | Representable(g, w)
      ensures Distance(n, Round(n)) <= Distance(n, w)
      ensures w != Round(n) && Distance(n, w) == Distance(n, Round(n)) ==> 2 * r == Pow2(s)
    {
      RoundNearest(g, n, s, q, r, w);
    }
  }

  // ---------------------------------------------------------------------------------------------------------
  // The accumulation  m_rotate += ROTATE_DELTA,  counted in halves

  /** m_rotate after one more increment of a half. */
  function AddDelta(rotate: nat): nat {
    Round(rotate + 1)
  }

  /** m_rotate after k executed increments, starting at 0. */
  function Accumulate(k: nat): nat {
    if k == 0 then 0 else AddDelta(Accumulate(k - 1))
  }

  function Min(a: nat, b: nat): nat {
    if a <= b then a else b
  }

  /** Below 2^24 halves nothing is dropped; at 2^24 halves the last place is worth a whole, so the half more is a
      tie, and the tie goes back to the even side. */
  lemma AddDeltaAt(h: nat)
    requires h <= LIMIT
    ensures AddDelta(h) == Min(h + 1, LIMIT)
  {
    var n := h + 1;
    if n < LIMIT {
      QuotientUnique(n, n, 0, 1);
    } else {
      assert Pow2(1) == 2;
      ShiftIs(n, 1);
    }
  }

  /** m_rotate is exactly k halves up to k == 2^24 increments and stays at 2^24 halves, 2^23, for ever after. */
  lemma {:induction false} RotationClosedForm(k: nat)
    ensures Accumulate(k) == Min(k, LIMIT)
  {
    if k > 0 {
      RotationClosedForm(k - 1);
      AddDeltaAt(Accumulate(k - 1));
    }
  }

  /** A representable number is left alone. */
  lemma RoundExact(g: nat, n: nat)
    requires Representable(g, n)
    ensures Round(n) == n
  {
    SplitOf(n);
    RoundNearest(g, n, Shift(n), n / Pow2(Shift(n)), n % Pow2(Shift(n)), n);
  }

  /** Rounding does not depend on the grid the halves are counted on. */
  lemma RoundScaled(g: nat, h: nat)
    requires h <= LIMIT + 1
    ensures Round(h * Pow2(g)) == Min(h, LIMIT) * Pow2(g)
  {
    if h < LIMIT {
      assert HasForm(g, h * Pow2(g), h, g);
      RoundExact(g, h * Pow2(g));
    } else if h == LIMIT {
      RoundAtTop(g, LIMIT * Pow2(g), 0);
    } else {
      OneMoreUnit(h - 1, Pow2(g));
      RoundAtTop(g, h * Pow2(g), Pow2(g));
    }
  }

  lemma OneMoreUnit(h: nat, unit: nat)
    ensures (h + 1) * unit == h * unit + unit
  {}

  lemma RoundAtTop(g: nat, n: nat, r: nat)
    requires n == LIMIT * Pow2(g) + r && r <= Pow2(g)
    ensures Round(n) == LIMIT * Pow2(g)
  {
    DoublingStep(g);
    assert Pow2(g + 1) == 2 * Pow2(g);
    ShiftIs(n, g + 1);
    RoundOfSplit(n, g + 1, HIDDEN, r);
  }

  /** On every grid the sum of a reached angle and a half rounds, ties to even, to the next reached angle. */
  lemma RotationStepIsRounded(g: nat, k: nat)
    ensures RoundsTo(g, (Accumulate(k) + 1) * Pow2(g), Accumulate(k + 1) * Pow2(g))
  {
    RotationClosedForm(k);
    RotationClosedForm(k + 1);
    var h := Accumulate(k) + 1;
    InRange(g, h);
    RoundScaled(g, h);
    RoundIsTiesToEven(g, h * Pow2(g));
  }

  lemma InRange(g: nat, h: nat)
    requires h <= LIMIT + 1
    ensures h * Pow2(g) <= (LIMIT - 1) * Pow2(g + SPAN)
  {
    Pow2Order(g + 2, g + SPAN);
    assert Pow2(g + 2) == 2 * Pow2(g + 1) == 4 * Pow2(g);
    MulMonotone(h, LIMIT + 1, Pow2(g));
  }
}
