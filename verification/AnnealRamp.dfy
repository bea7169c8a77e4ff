// The integer square root behind the annealing ramp, and the ramp itself.
module AnnealRamp {
  import opened Common
  import opened Geometry

  const U128_LIMIT: nat := 0x1_0000_0000_0000_0000_0000_0000_0000_0000
  const NOMINAL_BP: nat := 10_000
  /** No endpoint may exceed it. */
  const MAX_BP: nat := 100_000

  // ---------------------------------------------------------------- floor square root

  predicate IsFloorSqrt(root: nat, value: nat) { root * root <= value < (root + 1) * (root + 1) }

  function FloorSqrt(value: nat): (root: nat)
    ensures IsFloorSqrt(root, value)
  {
    if value == 0 then 0
    else
      var below := FloorSqrt(value - 1);
      if (below + 1) * (below + 1) <= value then below + 1 else below
  }

  lemma SquareMonotone(a: nat, b: nat)
    ensures a <= b ==> a * a <= b * b
  {
    MulMonotone(a, b, a);
    MulMonotone(a, b, b);
  }

  lemma FloorSqrtUnique(a: nat, b: nat, value: nat)
    requires IsFloorSqrt(a, value) && IsFloorSqrt(b, value)
    ensures a == b
  {
    SquareMonotone(a + 1, b);
    SquareMonotone(b + 1, a);
  }

  lemma FloorSqrtMonotone(value: nat, larger: nat)
    requires value <= larger
    ensures FloorSqrt(value) <= FloorSqrt(larger)
  {
    SquareMonotone(FloorSqrt(larger) + 1, FloorSqrt(value));
  }

  lemma Pow2At64()
    ensures Pow2(63) == 0x8000_0000_0000_0000
  {
    Pow2Small();
    hide Pow2;
    Pow2Adds(8, 8);
    Pow2Adds(16, 16);
    Pow2Adds(32, 16);
    Pow2Adds(48, 8);
    Pow2Adds(56, 7);
  }

  lemma Pow2Small()
    ensures Pow2(7) == 128 && Pow2(8) == 256
  {
    assert Pow2(4) == 16;
  }

  lemma {:induction false} Pow2Adds(a: nat, b: nat)
    ensures Pow2(a + b) == Pow2(a) * Pow2(b)
  {
    if b > 0 {
      Pow2Adds(a, b - 1);
      assert Pow2(a + b) == 2 * Pow2(a + (b - 1));
    }
  }

  /**
   * State of the digit loop: the root found so far is `found`, a multiple of
   * twice the digit `b`, and `root` carries `2 * found * b`.
   */
  ghost predicate Digits(value: nat, found: nat, q: nat, b: nat, bit: nat, root: nat, rest: nat) {
    && bit == b * b && root == 2 * (found * b) && found == 2 * (b * q)
    && value == found * found + rest
    && rest < 4 * (found * b) + 4 * (b * b)
  }

  /** Accepting the digit. */
  lemma TakeDigit(value: nat, found: nat, q: nat, b: nat, bit: nat, root: nat, rest: nat)
    requires Digits(value, found, q, b, bit, root, rest) && rest >= root + bit
    ensures value == (found + b) * (found + b) + (rest - root - bit)
    ensures rest - root - bit < 2 * ((found + b) * b) + b * b
    ensures root / 2 + bit == (found + b) * b
    ensures found + b == b * (2 * q + 1)
  {
    assert (found + b) * (found + b) == found * found + 2 * (found * b) + b * b;
    assert (found + b) * b == found * b + b * b;
  }

  lemma SkipDigit(value: nat, found: nat, q: nat, b: nat, bit: nat, root: nat, rest: nat)
    requires Digits(value, found, q, b, bit, root, rest) && rest < root + bit
    ensures rest < 2 * (found * b) + b * b
    ensures root / 2 == found * b && found == b * (2 * q)
  {
    assert b * (2 * q) == 2 * (b * q);
  }

  /** Halving the digit: what holds after a step at `2 * half` is the invariant at `half`. */
  lemma NextDigit(value: nat, found: nat, q: nat, half: nat, root: nat, rest: nat)
    requires value == found * found + rest && found == 2 * half * q
    requires rest < 2 * (found * (2 * half)) + (2 * half) * (2 * half) && root == found * (2 * half)
    ensures Digits(value, found, q, half, half * half, root, rest)
  {
    assert found * (2 * half) == 2 * (found * half);
    assert (2 * half) * (2 * half) == 4 * (half * half);
    assert 2 * half * q == 2 * (half * q);
  }

  lemma QuarterOfSquare(half: nat)
    ensures (2 * half) * (2 * half) / 4 == half * half
  {
    assert (2 * half) * (2 * half) == 4 * (half * half);
  }

  /** The trial sum of the loop stays within 128 bits. */
  lemma TrialFits(value: nat, found: nat, q: nat, b: nat, k: nat, bit: nat, root: nat, rest: nat)
    requires Digits(value, found, q, b, bit, root, rest) && value < U128_LIMIT && b == Pow2(k) && k <= 63
    ensures root + bit < U128_LIMIT
  {
    DigitRoom(value, found, q, b, k, rest);
    SquareMonotone(found + 2 * b, U64_LIMIT);
    SquareOfSum(found, b);
    MulMonotone(1, b, b);
    TrialBelow(found * found, found * b, b * b, root, bit);
  }

  lemma SquareOfSum(found: nat, b: nat)
    ensures (found + 2 * b) * (found + 2 * b) == found * found + 4 * (found * b) + 4 * (b * b)
  {
  }

  lemma TrialBelow(square: nat, cross: nat, bit2: nat, root: nat, bit: nat)
    requires square + 4 * cross + 4 * bit2 <= U128_LIMIT && bit2 >= 1 && root == 2 * cross && bit == bit2
    ensures root + bit < U128_LIMIT
  {
  }

  /** The root found so far leaves room for two more digits of weight `b` below 2^64. */
  lemma DigitRoom(value: nat, found: nat, q: nat, b: nat, k: nat, rest: nat)
    requires found == 2 * (b * q) && value == found * found + rest && value < U128_LIMIT
    requires b == Pow2(k) && k <= 63
    ensures found + 2 * b <= U64_LIMIT
  {
    Pow2At64();
    Pow2Adds(k, 63 - k);
    var rounds := Pow2(63 - k);
    SquareMonotone(U64_LIMIT, found);
    MulMonotone(rounds, q, b);
    MulMonotone(q + 1, rounds, b);
    hide Pow2;
  }

  lemma RemainderIsSmall(value: nat, found: nat, rest: nat)
    requires value == found * found + rest && rest < 2 * found + 1
    ensures IsFloorSqrt(found, value)
  {
    assert (found + 1) * (found + 1) == found * found + 2 * found + 1;
  }

  /** Root found so far, its quotient by twice the digit, and the digit's exponent. */
  datatype Found = Found(root: nat, q: nat, k: nat)

  /** Loop invariant: digits remain, or the root is final. */
  ghost predicate Rooting(value: nat, found: Found, bit: nat, root: nat, rest: nat) {
    if bit != 0 then found.k <= 63 && Digits(value, found.root, found.q, Pow2(found.k), bit, root, rest)
    else IsFloorSqrt(root, value)
  }

  /** After both branches of a digit step. */
  lemma AfterDigit(value: nat, k: nat, root: nat, q: nat, newRoot: nat, rest: nat) returns (next: Found)
    requires k <= 63 && root == Pow2(k) * q && newRoot == root * Pow2(k)
    requires value == root * root + rest && rest < 2 * (root * Pow2(k)) + Pow2(k) * Pow2(k)
    ensures Rooting(value, next, Pow2(k) * Pow2(k) / 4, newRoot, rest)
    ensures Pow2(k) * Pow2(k) / 4 < Pow2(k) * Pow2(k)
  {
    if k > 0 {
      var half := Pow2(k - 1);
      NextDigit(value, root, q, half, newRoot, rest);
      QuarterOfSquare(half);
      next := Found(root, q, k - 1);
      MulMonotone(1, half, half);
    } else {
      RemainderIsSmall(value, root, rest);
      next := Found(root, q, 0);
    }
  }

  /** One turn of the digit loop. */
  lemma DigitStep(value: nat, found: Found, bit: nat, root: nat, rest: nat) returns (next: Found)
    requires bit != 0 && Rooting(value, found, bit, root, rest) && value < U128_LIMIT
    ensures root + bit < U128_LIMIT && bit / 4 < bit
    ensures rest >= root + bit ==> Rooting(value, next, bit / 4, root / 2 + bit, rest - root - bit)
    ensures rest < root + bit ==> Rooting(value, next, bit / 4, root / 2, rest)
  {
    hide Rooting;
    RootingDigits(value, found, bit, root, rest);
    var b := Pow2(found.k);
    TrialFits(value, found.root, found.q, b, found.k, bit, root, rest);
    if rest >= root + bit {
      TakeDigit(value, found.root, found.q, b, bit, root, rest);
      next := AfterDigit(value, found.k, found.root + b, 2 * found.q + 1, root / 2 + bit, rest - root - bit);
    } else {
      SkipDigit(value, found.root, found.q, b, bit, root, rest);
      next := AfterDigit(value, found.k, found.root, 2 * found.q, root / 2, rest);
    }
  }

  lemma RootingDigits(value: nat, found: Found, bit: nat, root: nat, rest: nat)
    requires bit != 0 && Rooting(value, found, bit, root, rest)
    ensures found.k <= 63 && Digits(value, found.root, found.q, Pow2(found.k), bit, root, rest)
  {
  }

  /** Shrinking the first digit below the value. */
  lemma FirstDigitShrinks(k: nat, rest: nat)
    requires rest >= 2 && Pow2(k) * Pow2(k) > rest
    ensures k > 0 && Pow2(k) * Pow2(k) / 4 == Pow2(k - 1) * Pow2(k - 1)
    ensures Pow2(k) * Pow2(k) / 4 < Pow2(k) * Pow2(k) && rest < 4 * (Pow2(k) * Pow2(k) / 4)
  {
    assert k > 0;
    QuarterOfSquare(Pow2(k - 1));
    assert (2 * Pow2(k - 1)) * (2 * Pow2(k - 1)) == 4 * (Pow2(k - 1) * Pow2(k - 1));
  }

  /** Integer square root, rounded down, for every 128-bit value. */
  method IsqrtU128(value: nat) returns (root: nat)
    requires value < U128_LIMIT
    ensures root == FloorSqrt(value)
    ensures IsFloorSqrt(root, value)
  {
    hide Rooting, Pow2;
    if value <= 1 {
      FloorSqrtUnique(value, FloorSqrt(value), value);
      return value;
    }
    root := 0;
    Pow2At64();
    ghost var k: nat := 63;
    var bit: nat := 0x4000_0000_0000_0000_0000_0000_0000_0000;
    var rest: nat := value;
    while bit > rest
      invariant k <= 63 && bit == Pow2(k) * Pow2(k) && rest < 4 * bit
      decreases bit
    {
      FirstDigitShrinks(k, rest);
      k := k - 1;
      bit := bit / 4;
    }
    ghost var found := Found(0, 0, k);
    RootingStarts(value, k);
    while bit != 0
      invariant Rooting(value, found, bit, root, rest)
      decreases bit
    {
      found := DigitStep(value, found, bit, root, rest);
      var grown := root + bit;
      assert grown < U128_LIMIT;
      if rest >= grown {
        rest := rest - grown;
        root := root / 2 + bit;
      } else {
        root := root / 2;
      }
      bit := bit / 4;
    }
    RootingEnds(value, found, root, rest);
    FloorSqrtUnique(root, FloorSqrt(value), value);
  }

  lemma RootingStarts(value: nat, k: nat)
    requires k <= 63 && value < 4 * (Pow2(k) * Pow2(k))
    ensures Rooting(value, Found(0, 0, k), Pow2(k) * Pow2(k), 0, value)
  {
  }

  lemma RootingEnds(value: nat, found: Found, root: nat, rest: nat)
    requires Rooting(value, found, 0, root, rest)
    ensures IsFloorSqrt(root, value)
  {
  }

  // ---------------------------------------------------------------- the ramp

  /** Scale endpoints in basis points of full-scale sigma. */
  datatype AnnealScale = AnnealScale(startBp: nat, endBp: nat)

  const FULL := AnnealScale(NOMINAL_BP, 0)

  predicate ValidScale(scale: AnnealScale) { scale.startBp <= MAX_BP && scale.endBp <= MAX_BP }

  datatype AnnealSchedule = AnnealSchedule(updates: nat, zeroUpdates: nat, scale: AnnealScale)

  /** Where the tail begins on which the scale is zero. */
  function ZeroFromUpdate(schedule: AnnealSchedule): nat {
    if schedule.updates < schedule.zeroUpdates then 0 else schedule.updates - schedule.zeroUpdates
  }

  /** Interpolates the ramp at one normalized root. */
  function Apply(scale: AnnealScale, root: nat): nat
    requires root <= NOMINAL_BP
  {
    Weighted(scale.startBp, NOMINAL_BP - root, scale.endBp, root) / NOMINAL_BP
  }

  function Weighted(a: nat, weightA: nat, b: nat, weightB: nat): nat { a * weightA + b * weightB }

  function RampRoot(update: nat, span: nat): (root: nat)
    requires update < span
    ensures root < NOMINAL_BP
  {
    RootBelowNominal(update, span);
    FloorSqrt(update * NOMINAL_BP * NOMINAL_BP / span)
  }

  lemma RootBelowNominal(update: nat, span: nat)
    requires update < span
    ensures FloorSqrt(update * NOMINAL_BP * NOMINAL_BP / span) < NOMINAL_BP
  {
    var square := NOMINAL_BP * NOMINAL_BP;
    var quotient := update * NOMINAL_BP * NOMINAL_BP / span;
    assert update * NOMINAL_BP * NOMINAL_BP == update * square;
    MulMonotone(square, quotient, span);
    SquareMonotone(NOMINAL_BP, FloorSqrt(quotient));
  }

  /** Scale at one update; the zero tail is zero whatever the endpoints are. */
  function ScaleBp(schedule: AnnealSchedule, update: nat): nat {
    var span := ZeroFromUpdate(schedule);
    if update >= span then 0 else Apply(schedule.scale, RampRoot(update, span))
  }

  /** The same scale as the code computes it, with the digit-by-digit root. */
  method ComputeScaleBp(schedule: AnnealSchedule, update: nat) returns (bp: nat)
    requires schedule.updates < U64_LIMIT && update < U64_LIMIT
    ensures bp == ScaleBp(schedule, update)
  {
    var span := ZeroFromUpdate(schedule);
    if span == 0 || update >= span {
      return 0;
    }
    var numerator := update * NOMINAL_BP * NOMINAL_BP;
    QuotientFits(numerator, span);
    var root := IsqrtU128(numerator / span);
    assert root == RampRoot(update, span);
    bp := Apply(schedule.scale, root);
  }

  lemma QuotientFits(numerator: nat, span: nat)
    requires numerator < U128_LIMIT && span > 0
    ensures numerator / span < U128_LIMIT
  {
    MulMonotone(1, span, numerator / span);
  }

  lemma RampStartsAtStart(schedule: AnnealSchedule)
    requires ZeroFromUpdate(schedule) > 0
    ensures ScaleBp(schedule, 0) == schedule.scale.startBp
  {
    assert 0 * NOMINAL_BP * NOMINAL_BP / ZeroFromUpdate(schedule) == 0;
    FloorSqrtUnique(0, FloorSqrt(0), 0);
  }

  lemma TailIsZero(schedule: AnnealSchedule, update: nat)
    requires update >= ZeroFromUpdate(schedule)
    ensures ScaleBp(schedule, update) == 0
  {
  }

  /** Roots never fall along the ramp. */
  lemma RootMonotone(update: nat, later: nat, span: nat)
    requires update <= later < span
    ensures RampRoot(update, span) <= RampRoot(later, span)
  {
    var square := NOMINAL_BP * NOMINAL_BP;
    assert update * NOMINAL_BP * NOMINAL_BP == update * square && later * NOMINAL_BP * NOMINAL_BP == later * square;
    DivMonotone(update * square, later * square, span);
    FloorSqrtMonotone(update * square / span, later * square / span);
  }

  lemma DivMonotone(a: nat, b: nat, d: nat)
    requires a <= b && d > 0
    ensures a / d <= b / d
  {
    MulMonotone(b / d + 1, a / d, d);
  }

  lemma ApplyMonotone(scale: AnnealScale, root: nat, later: nat)
    requires root <= later <= NOMINAL_BP
    ensures scale.endBp <= scale.startBp ==> Apply(scale, later) <= Apply(scale, root)
    ensures scale.startBp <= scale.endBp ==> Apply(scale, root) <= Apply(scale, later)
  {
    var d := later - root;
    assert scale.startBp * (NOMINAL_BP - root) == scale.startBp * (NOMINAL_BP - later) + scale.startBp * d;
    assert scale.endBp * later == scale.endBp * root + scale.endBp * d;
    if scale.endBp <= scale.startBp {
      MulMonotone(scale.endBp, scale.startBp, d);
    }
    if scale.startBp <= scale.endBp {
      MulMonotone(scale.startBp, scale.endBp, d);
    }
  }

  /** The ramp moves from start towards end without turning back and never leaves the endpoints' range. */
  lemma RampIsMonotone(schedule: AnnealSchedule, update: nat, later: nat)
    requires update <= later < ZeroFromUpdate(schedule)
    ensures schedule.scale.endBp <= schedule.scale.startBp ==>
      schedule.scale.endBp <= ScaleBp(schedule, later) <= ScaleBp(schedule, update) <= schedule.scale.startBp
    ensures schedule.scale.startBp <= schedule.scale.endBp ==>
      schedule.scale.startBp <= ScaleBp(schedule, update) <= ScaleBp(schedule, later) <= schedule.scale.endBp
  {
    var span := ZeroFromUpdate(schedule);
    RootMonotone(update, later, span);
    ApplyMonotone(schedule.scale, RampRoot(update, span), RampRoot(later, span));
    ApplyMonotone(schedule.scale, 0, RampRoot(update, span));
    ApplyMonotone(schedule.scale, RampRoot(later, span), NOMINAL_BP);
    assert Apply(schedule.scale, 0) == schedule.scale.startBp;
    assert Apply(schedule.scale, NOMINAL_BP) == schedule.scale.endBp;
  }

  /** The integer root is the exact floor of `10^4 * sqrt(update / span)`. */
  lemma RootIsExact(update: nat, span: nat)
    requires update < span
    ensures var root := RampRoot(update, span);
      root * root * span <= update * (NOMINAL_BP * NOMINAL_BP) < (root + 1) * (root + 1) * span
  {
    var root, scaled := RampRoot(update, span), update * (NOMINAL_BP * NOMINAL_BP);
    assert update * NOMINAL_BP * NOMINAL_BP == scaled;
    MulMonotone(root * root, scaled / span, span);
    MulMonotone(scaled / span + 1, (root + 1) * (root + 1), span);
  }

  /** A root serves an elapsed fraction when it is ten thousand times its square root, rounded down. */
  ghost predicate IsRampRoot(root: nat, update: nat, span: nat) {
    root * root * span <= update * 100_000_000 < (root + 1) * (root + 1) * span
  }

  lemma RampRootIsUnique(a: nat, b: nat, update: nat, span: nat)
    requires span > 0 && IsRampRoot(a, update, span) && IsRampRoot(b, update, span)
    ensures a == b
  {
    if a < b {
      MulMonotone(a + 1, b, a + 1);
      MulMonotone(a + 1, b, b);
      MulMonotone((a + 1) * (a + 1), b * b, span);
    } else if b < a {
      MulMonotone(b + 1, a, b + 1);
      MulMonotone(b + 1, a, a);
      MulMonotone((b + 1) * (b + 1), a * a, span);
    }
  }

  /**
   * The scale at every update: zero on the tail; before it, the whole part of
   * the straight line between the endpoints at the ramp root of the elapsed
   * fraction.
   */
  lemma ScaleIsLinearInRoot(schedule: AnnealSchedule, update: nat, root: nat)
    ensures update + schedule.zeroUpdates >= schedule.updates ==> ScaleBp(schedule, update) == 0
    ensures update + schedule.zeroUpdates < schedule.updates && IsRampRoot(root, update, schedule.updates - schedule.zeroUpdates) ==>
      && root <= 10_000
      && var line := schedule.scale.startBp * (10_000 - root) + schedule.scale.endBp * root;
         line - 10_000 < ScaleBp(schedule, update) * 10_000 <= line
  {
    if update + schedule.zeroUpdates < schedule.updates && IsRampRoot(root, update, schedule.updates - schedule.zeroUpdates) {
      var span := ZeroFromUpdate(schedule);
      RootIsExact(update, span);
      RampRootIsUnique(root, RampRoot(update, span), update, span);
    }
  }
}
