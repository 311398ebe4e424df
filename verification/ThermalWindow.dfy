/** The charge-temperature window check of the BQ25185 charger (check_thermal_window.py).

The script evaluates a thermistor divider at a handful of tolerance corners and
at three temperatures.  This module proves what that is worth: the corners bound
the whole continuous tolerance box, each verdict holds at the corners exactly
when it holds for every buildable board, and the three temperatures settle all
temperatures above absolute zero.

`math.exp` is a parameter `e` of which only two laws are used. */
module ThermalWindow {
  import opened Sequences

  const R25_OHM := 10000.0
  const BETA_K := 3435.0
  const TS_CURRENT_MIN_A := 0.0000365
  const TS_CURRENT_MAX_A := 0.0000395
  const CHARGER_INPUT_MIN_V := 4.25
  const CHARGER_INPUT_MAX_V := 5.10
  const NTC_R25_TOL := 0.01
  const NTC_BETA_TOL := 0.01
  const REFERENCE_TOL := 0.01
  const COMPARATOR_UNCERTAINTY_V := 0.0205

  const HOT_TOP_OHM := 432000.0     // R11
  const HOT_BOTTOM_OHM := 24900.0   // R12
  const COLD_TOP_OHM := 365000.0    // R13
  const COLD_BOTTOM_OHM := 49900.0  // R14

  const ZERO_CELSIUS_K := 273.15
  const REFERENCE_TEMPERATURE_K := 298.15

  // ---------------------------------------------------------------- exp ---

  ghost predicate MultiplicativeAt(e: real -> real, x: real, y: real) {
    e(x + y) == e(x) * e(y)
  }

  ghost predicate AboveTangentAt(e: real -> real, x: real) {
    e(x) >= 1.0 + x
  }

  /** The two laws of the exponential function that the proofs rest on. */
  ghost predicate IsExponential(e: real -> real) {
    && (forall x, y :: MultiplicativeAt(e, x, y))
    && (forall x :: AboveTangentAt(e, x))
  }

  lemma ExpPositive(e: real -> real, x: real)
    requires IsExponential(e)
    ensures e(x) > 0.0
    ensures e(0.0) == 1.0
    ensures e(x) * e(-x) == 1.0
  {
    assert MultiplicativeAt(e, 0.0, 0.0) && AboveTangentAt(e, 0.0);
    assert e(0.0) * (e(0.0) - 1.0) == 0.0;
    assert MultiplicativeAt(e, x, -x);
    assert x + (-x) == 0.0;
    var half := x / 2.0;
    assert half + half == x;
    assert MultiplicativeAt(e, half, half);
    assert e(x) == e(half) * e(half);
  }

  lemma ExpIncreasing(e: real -> real, x: real, y: real)
    requires IsExponential(e)
    ensures x < y ==> e(x) < e(y)
    ensures x <= y ==> e(x) <= e(y)
  {
    if x < y {
      assert x + (y - x) == y;
      assert MultiplicativeAt(e, x, y - x) && AboveTangentAt(e, y - x);
      ExpPositive(e, x);
      ProductGrows(e(x), e(y - x));
    }
  }

  lemma ProductGrows(a: real, b: real)
    requires a > 0.0 && b > 1.0
    ensures a < a * b
  {}

  // ------------------------------------------------------ the script's model ---

  /** The factor of beta in the thermistor's exponent; zero at 25 C. */
  function Coefficient(celsius: real): real
    requires celsius + ZERO_CELSIUS_K != 0.0
  {
    1.0 / (celsius + ZERO_CELSIUS_K) - 1.0 / REFERENCE_TEMPERATURE_K
  }

  function Exponent(beta: real, q: real): real {
    beta * q
  }

  function NtcOhms(e: real -> real, celsius: real, r25: real, beta: real): real
    requires celsius + ZERO_CELSIUS_K != 0.0
  {
    r25 * e(Exponent(beta, Coefficient(celsius)))
  }

  function Reference(voltage: real, top: real, bottom: real): real
    requires top + bottom != 0.0
  {
    voltage * bottom / (top + bottom)
  }

  datatype Range = Range(lo: real, hi: real)

  function RangeOf(s: seq<real>): Range
    requires s != []
  {
    Range(MinOf(s), MaxOf(s))
  }

  /** One end of a tolerance interval around a nominal value. */
  function End(nominal: real, tol: real, high: bool): real {
    nominal * (1.0 + if high then tol else -tol)
  }

  function Current(high: bool): real {
    if high then TS_CURRENT_MAX_A else TS_CURRENT_MIN_A
  }

  function Supply(high: bool): real {
    if high then CHARGER_INPUT_MAX_V else CHARGER_INPUT_MIN_V
  }

  /** Corner k of the eight, in the order of the script's `product`. */
  function NtcCorner(e: real -> real, celsius: real, k: nat): real
    requires celsius + ZERO_CELSIUS_K != 0.0
  {
    NtcOhms(e, celsius, End(R25_OHM, NTC_R25_TOL, k / 4 % 2 == 1), End(BETA_K, NTC_BETA_TOL, k / 2 % 2 == 1))
    * Current(k % 2 == 1)
  }

  function ReferenceCorner(top: real, bottom: real, k: nat): real
    requires top > 0.0 && bottom > 0.0
  {
    Reference(Supply(k / 4 % 2 == 1), End(top, REFERENCE_TOL, k / 2 % 2 == 1), End(bottom, REFERENCE_TOL, k % 2 == 1))
  }

  function TsRange(e: real -> real, celsius: real): Range
    requires celsius + ZERO_CELSIUS_K != 0.0
  {
    RangeOf(seq(8, k requires 0 <= k < 8 => NtcCorner(e, celsius, k)))
  }

  function ReferenceCorners(top: real, bottom: real): (s: seq<real>)
    requires top > 0.0 && bottom > 0.0
    ensures |s| == 8 && forall k :: 0 <= k < 8 ==> s[k] == ReferenceCorner(top, bottom, k)
  {
    seq(8, k requires 0 <= k < 8 => ReferenceCorner(top, bottom, k))
  }

  function ReferenceRange(top: real, bottom: real): Range
    requires top > 0.0 && bottom > 0.0
  {
    RangeOf(ReferenceCorners(top, bottom))
  }

  function HotRange(): Range { ReferenceRange(HOT_TOP_OHM, HOT_BOTTOM_OHM) }

  function ColdRange(): Range { ReferenceRange(COLD_TOP_OHM, COLD_BOTTOM_OHM) }

  predicate ChargeCertainlyBlockedAtHot(e: real -> real, celsius: real)
    requires celsius + ZERO_CELSIUS_K != 0.0
  {
    TsRange(e, celsius).hi + COMPARATOR_UNCERTAINTY_V < HotRange().lo
  }

  predicate ChargeCertainlyBlockedAtCold(e: real -> real, celsius: real)
    requires celsius + ZERO_CELSIUS_K != 0.0
  {
    TsRange(e, celsius).lo - COMPARATOR_UNCERTAINTY_V > ColdRange().hi
  }

  predicate ChargeCertainlyAllowed(e: real -> real, celsius: real)
    requires celsius + ZERO_CELSIUS_K != 0.0
  {
    && TsRange(e, celsius).lo - COMPARATOR_UNCERTAINTY_V > HotRange().hi
    && TsRange(e, celsius).hi + COMPARATOR_UNCERTAINTY_V < ColdRange().lo
  }

  // ------------------------------------------------- boards inside the box ---

  /** The actual part values of one board. */
  datatype Board = Board(r25: real, beta: real, current: real, supply: real,
                         hotTop: real, hotBottom: real, coldTop: real, coldBottom: real)

  predicate Within(x: real, nominal: real, tol: real) {
    nominal * (1.0 - tol) <= x <= nominal * (1.0 + tol)
  }

  predicate InTolerance(b: Board) {
    && Within(b.r25, R25_OHM, NTC_R25_TOL)
    && Within(b.beta, BETA_K, NTC_BETA_TOL)
    && TS_CURRENT_MIN_A <= b.current <= TS_CURRENT_MAX_A
    && CHARGER_INPUT_MIN_V <= b.supply <= CHARGER_INPUT_MAX_V
    && Within(b.hotTop, HOT_TOP_OHM, REFERENCE_TOL)
    && Within(b.hotBottom, HOT_BOTTOM_OHM, REFERENCE_TOL)
    && Within(b.coldTop, COLD_TOP_OHM, REFERENCE_TOL)
    && Within(b.coldBottom, COLD_BOTTOM_OHM, REFERENCE_TOL)
  }

  function TsVolts(e: real -> real, celsius: real, b: Board): real
    requires celsius + ZERO_CELSIUS_K != 0.0
  {
    NtcOhms(e, celsius, b.r25, b.beta) * b.current
  }

  function HotVolts(b: Board): real
    requires InTolerance(b)
  {
    Reference(b.supply, b.hotTop, b.hotBottom)
  }

  function ColdVolts(b: Board): real
    requires InTolerance(b)
  {
    Reference(b.supply, b.coldTop, b.coldBottom)
  }

  // ---------------------------------------------------------- monotonicity ---

  lemma MulMonotone(a: real, b: real, a': real, b': real)
    requires 0.0 <= a <= a' && 0.0 <= b <= b'
    ensures a * b <= a' * b'
  {
    assert a * b <= a' * b;
    assert a' * b <= a' * b';
  }

  lemma ReferenceMonotone(v: real, t: real, b: real, v': real, t': real, b': real)
    requires 0.0 <= v <= v' && 0.0 < t' <= t && 0.0 < b <= b'
    ensures Reference(v, t, b) <= Reference(v', t', b')
  {
    MulMonotone(v, b, v', b');
    CrossProducts(v, t, b, v', t', b');
    DivideBoth(v * b, t + b, v' * b', t' + b');
  }

  lemma CrossProducts(v: real, t: real, b: real, v': real, t': real, b': real)
    requires 0.0 <= v <= v' && 0.0 < t' <= t && 0.0 < b <= b'
    ensures (v * b) * (t' + b') <= (v' * b') * (t + b)
  {
    MulMonotone(b, t', b', t);
    var w, w' := b * (t' + b'), b' * (t + b);
    assert w == b * t' + b * b' && w' == b' * t + b' * b;
    MulMonotone(v, w, v', w');
    assert v * w == (v * b) * (t' + b');
    assert v' * w' == (v' * b') * (t + b);
  }

  lemma DivideBoth(a: real, b: real, c: real, d: real)
    requires b > 0.0 && d > 0.0 && a * d <= c * b
    ensures a / b <= c / d
  {
    var x, y := a / b, c / d;
    assert a == x * b && c == y * d;
    assert a * d == x * (b * d) && c * b == y * (b * d);
    CancelFactor(x, y, b * d);
  }

  lemma CancelFactor(x: real, y: real, f: real)
    requires f > 0.0 && x * f <= y * f
    ensures x <= y
  {
    assert (y - x) * f >= 0.0;
  }

  lemma MulOrder(f: real, x: real, y: real)
    requires x <= y
    ensures f >= 0.0 ==> x * f <= y * f
    ensures f <= 0.0 ==> y * f <= x * f
  {
    var d := y - x;
    assert d * f == y * f - x * f;
    assert f >= 0.0 ==> d * f >= 0.0;
    assert f <= 0.0 ==> d * f <= 0.0;
  }

  lemma ExponentOrder(q: real, x: real, y: real)
    requires x <= y
    ensures q >= 0.0 ==> Exponent(x, q) <= Exponent(y, q)
    ensures q <= 0.0 ==> Exponent(y, q) <= Exponent(x, q)
  {
    MulOrder(q, x, y);
  }

  /** beta's effect on the thermistor has the sign of the exponent's coefficient q. */
  lemma ExponentBetween(e: real -> real, q: real, lo: real, beta: real, hi: real)
    requires IsExponential(e) && lo <= beta <= hi
    ensures q >= 0.0 ==> e(Exponent(lo, q)) <= e(Exponent(beta, q)) <= e(Exponent(hi, q))
    ensures q <= 0.0 ==> e(Exponent(hi, q)) <= e(Exponent(beta, q)) <= e(Exponent(lo, q))
  {
    ExponentOrder(q, lo, beta);
    ExponentOrder(q, beta, hi);
    if q >= 0.0 {
      Ordered(e, Exponent(lo, q), Exponent(beta, q), Exponent(hi, q));
    }
    if q <= 0.0 {
      Ordered(e, Exponent(hi, q), Exponent(beta, q), Exponent(lo, q));
    }
  }

  lemma Ordered(e: real -> real, a: real, b: real, c: real)
    requires IsExponential(e) && a <= b <= c
    ensures e(a) <= e(b) <= e(c)
  {
    ExpIncreasing(e, a, b);
    ExpIncreasing(e, b, c);
  }

  // -------------------------------------------------- corners bound the box ---

  lemma CornerInRange(e: real -> real, celsius: real, k: nat)
    requires celsius + ZERO_CELSIUS_K != 0.0 && k < 8
    ensures TsRange(e, celsius).lo <= NtcCorner(e, celsius, k) <= TsRange(e, celsius).hi
  {
    var s := seq(8, i requires 0 <= i < 8 => NtcCorner(e, celsius, i));
    assert s[k] in s;
  }

  lemma ReferenceCornerInRange(top: real, bottom: real, k: nat)
    requires top > 0.0 && bottom > 0.0 && k < 8
    ensures ReferenceRange(top, bottom).lo <= ReferenceCorner(top, bottom, k) <= ReferenceRange(top, bottom).hi
  {
    assert ReferenceCorners(top, bottom)[k] in ReferenceCorners(top, bottom);
  }

  /** The thermistor voltage as a function of the exponent's coefficient q alone. */
  function Volts(e: real -> real, q: real, r25: real, beta: real, current: real): real {
    r25 * e(Exponent(beta, q)) * current
  }

  function VoltsCorner(e: real -> real, q: real, k: nat): real {
    Volts(e, q, End(R25_OHM, NTC_R25_TOL, k / 4 % 2 == 1), End(BETA_K, NTC_BETA_TOL, k / 2 % 2 == 1),
          Current(k % 2 == 1))
  }

  lemma TsInRange(e: real -> real, celsius: real, b: Board)
    requires IsExponential(e) && celsius + ZERO_CELSIUS_K != 0.0 && InTolerance(b)
    ensures TsRange(e, celsius).lo <= TsVolts(e, celsius, b) <= TsRange(e, celsius).hi
  {
    var low, high := VoltsBetweenCorners(e, Coefficient(celsius), b.r25, b.beta, b.current);
    CornerInRange(e, celsius, low);
    CornerInRange(e, celsius, high);
    CornerByCoefficient(e, celsius, low);
    CornerByCoefficient(e, celsius, high);
    VoltsByCoefficient(e, celsius, b);
  }

  lemma VoltsByCoefficient(e: real -> real, celsius: real, b: Board)
    requires celsius + ZERO_CELSIUS_K != 0.0
    ensures TsVolts(e, celsius, b) == Volts(e, Coefficient(celsius), b.r25, b.beta, b.current)
  {}

  lemma CornerByCoefficient(e: real -> real, celsius: real, k: nat)
    requires celsius + ZERO_CELSIUS_K != 0.0
    ensures NtcCorner(e, celsius, k) == VoltsCorner(e, Coefficient(celsius), k)
  {}

  lemma VoltsBetweenCorners(e: real -> real, q: real, r25: real, beta: real, current: real)
      returns (low: nat, high: nat)
    requires IsExponential(e)
    requires Within(r25, R25_OHM, NTC_R25_TOL) && Within(beta, BETA_K, NTC_BETA_TOL)
    requires TS_CURRENT_MIN_A <= current <= TS_CURRENT_MAX_A
    ensures low < 8 && high < 8
    ensures VoltsCorner(e, q, low) <= Volts(e, q, r25, beta, current) <= VoltsCorner(e, q, high)
  {
    var bLo, bHi := End(BETA_K, NTC_BETA_TOL, false), End(BETA_K, NTC_BETA_TOL, true);
    var rLo, rHi := End(R25_OHM, NTC_R25_TOL, false), End(R25_OHM, NTC_R25_TOL, true);
    ExponentBetween(e, q, bLo, beta, bHi);
    ExpPositive(e, Exponent(bLo, q));
    ExpPositive(e, Exponent(bHi, q));
    if q >= 0.0 {
      low, high := 0, 7;
      TripleProduct(rLo, r25, rHi, e(Exponent(bLo, q)), e(Exponent(beta, q)), e(Exponent(bHi, q)),
                    TS_CURRENT_MIN_A, current, TS_CURRENT_MAX_A);
    } else {
      low, high := 2, 5;
      TripleProduct(rLo, r25, rHi, e(Exponent(bHi, q)), e(Exponent(beta, q)), e(Exponent(bLo, q)),
                    TS_CURRENT_MIN_A, current, TS_CURRENT_MAX_A);
    }
  }

  lemma TripleProduct(a: real, a': real, a'': real, b: real, b': real, b'': real, c: real, c': real, c'': real)
    requires 0.0 <= a <= a' <= a'' && 0.0 <= b <= b' <= b'' && 0.0 <= c <= c' <= c''
    ensures a * b * c <= a' * b' * c' <= a'' * b'' * c''
  {
    MulMonotone(a, b, a', b');
    MulMonotone(a', b', a'', b'');
    MulMonotone(a * b, c, a' * b', c');
    MulMonotone(a' * b', c', a'' * b'', c'');
  }

  lemma ReferenceInRange(top: real, bottom: real, v: real, t: real, b: real)
    requires top > 0.0 && bottom > 0.0
    requires CHARGER_INPUT_MIN_V <= v <= CHARGER_INPUT_MAX_V
    requires Within(t, top, REFERENCE_TOL) && Within(b, bottom, REFERENCE_TOL)
    ensures ReferenceRange(top, bottom).lo <= Reference(v, t, b) <= ReferenceRange(top, bottom).hi
  {
    var tLo, tHi := End(top, REFERENCE_TOL, false), End(top, REFERENCE_TOL, true);
    var bLo, bHi := End(bottom, REFERENCE_TOL, false), End(bottom, REFERENCE_TOL, true);
    ReferenceMonotone(Supply(false), tHi, bLo, v, t, b);
    ReferenceMonotone(v, t, b, Supply(true), tLo, bHi);
    ReferenceCornerInRange(top, bottom, 2);
    ReferenceCornerInRange(top, bottom, 5);
  }

  /** Every board in the tolerance box stays inside the ranges computed at the corners. */
  lemma CornersBoundEveryBoard(e: real -> real, celsius: real, b: Board)
    requires IsExponential(e) && celsius + ZERO_CELSIUS_K != 0.0 && InTolerance(b)
    ensures TsRange(e, celsius).lo <= TsVolts(e, celsius, b) <= TsRange(e, celsius).hi
    ensures HotRange().lo <= HotVolts(b) <= HotRange().hi
    ensures ColdRange().lo <= ColdVolts(b) <= ColdRange().hi
  {
    TsInRange(e, celsius, b);
    ReferenceInRange(HOT_TOP_OHM, HOT_BOTTOM_OHM, b.supply, b.hotTop, b.hotBottom);
    ReferenceInRange(COLD_TOP_OHM, COLD_BOTTOM_OHM, b.supply, b.coldTop, b.coldBottom);
  }

  /** The ranges are tight: some board in the box reaches either end of the TS range together with both
  upper or both lower ends of the references, which share one supply. */
  lemma CornersAreReached(e: real -> real, celsius: real, tsHigh: bool, refHigh: bool) returns (b: Board)
    requires IsExponential(e) && celsius + ZERO_CELSIUS_K != 0.0
    ensures InTolerance(b)
    ensures TsVolts(e, celsius, b) == if tsHigh then TsRange(e, celsius).hi else TsRange(e, celsius).lo
    ensures HotVolts(b) == if refHigh then HotRange().hi else HotRange().lo
    ensures ColdVolts(b) == if refHigh then ColdRange().hi else ColdRange().lo
  {
    var k := TsCornerIsReached(e, celsius, tsHigh);
    b := CornerBoard(k, refHigh);
    CornerBoardInTolerance(k, refHigh);
    CornerBoardThermistor(e, celsius, k, refHigh);
    CornerBoardReferences(k, refHigh);
  }

  lemma CornerBoardThermistor(e: real -> real, celsius: real, k: nat, refHigh: bool)
    requires celsius + ZERO_CELSIUS_K != 0.0
    ensures TsVolts(e, celsius, CornerBoard(k, refHigh)) == NtcCorner(e, celsius, k)
  {}

  lemma CornerBoardReferences(k: nat, refHigh: bool)
    requires InTolerance(CornerBoard(k, refHigh))
    ensures HotVolts(CornerBoard(k, refHigh)) == if refHigh then HotRange().hi else HotRange().lo
    ensures ColdVolts(CornerBoard(k, refHigh)) == if refHigh then ColdRange().hi else ColdRange().lo
  {
    ReferenceRangeEnds(HOT_TOP_OHM, HOT_BOTTOM_OHM);
    ReferenceRangeEnds(COLD_TOP_OHM, COLD_BOTTOM_OHM);
  }

  lemma TsCornerIsReached(e: real -> real, celsius: real, high: bool) returns (k: nat)
    requires celsius + ZERO_CELSIUS_K != 0.0
    ensures k < 8
    ensures NtcCorner(e, celsius, k) == if high then TsRange(e, celsius).hi else TsRange(e, celsius).lo
  {
    var s := seq(8, i requires 0 <= i < 8 => NtcCorner(e, celsius, i));
    var m := if high then MaxOf(s) else MinOf(s);
    k :| 0 <= k < 8 && s[k] == m;
  }

  function CornerBoard(k: nat, refHigh: bool): Board {
    Board(End(R25_OHM, NTC_R25_TOL, k / 4 % 2 == 1), End(BETA_K, NTC_BETA_TOL, k / 2 % 2 == 1), Current(k % 2 == 1),
          Supply(refHigh),
          End(HOT_TOP_OHM, REFERENCE_TOL, !refHigh), End(HOT_BOTTOM_OHM, REFERENCE_TOL, refHigh),
          End(COLD_TOP_OHM, REFERENCE_TOL, !refHigh), End(COLD_BOTTOM_OHM, REFERENCE_TOL, refHigh))
  }

  lemma CornerBoardInTolerance(k: nat, refHigh: bool)
    ensures InTolerance(CornerBoard(k, refHigh))
  {}

  /** The lowest reference: low supply, high top and low bottom resistor; and the highest. */
  function LowCorner(top: real, bottom: real): real
    requires top > 0.0 && bottom > 0.0
  {
    Reference(Supply(false), End(top, REFERENCE_TOL, true), End(bottom, REFERENCE_TOL, false))
  }

  function HighCorner(top: real, bottom: real): real
    requires top > 0.0 && bottom > 0.0
  {
    Reference(Supply(true), End(top, REFERENCE_TOL, false), End(bottom, REFERENCE_TOL, true))
  }

  /** The reference range is [min supply, max top, min bottom] .. [max supply, min top, max bottom]. */
  lemma ReferenceRangeEnds(top: real, bottom: real)
    requires top > 0.0 && bottom > 0.0
    ensures ReferenceRange(top, bottom).lo == LowCorner(top, bottom)
    ensures ReferenceRange(top, bottom).hi == HighCorner(top, bottom)
  {
    var kLo, kHi := EndsAt(ReferenceCorners(top, bottom));
    assert ReferenceRange(top, bottom).lo <= LowCorner(top, bottom) by { LowCornerIsOne(top, bottom); }
    assert HighCorner(top, bottom) <= ReferenceRange(top, bottom).hi by { HighCornerIsOne(top, bottom); }
    CornerBetweenEnds(top, bottom, kLo);
    CornerBetweenEnds(top, bottom, kHi);
  }

  lemma LowCornerIsOne(top: real, bottom: real)
    requires top > 0.0 && bottom > 0.0
    ensures ReferenceRange(top, bottom).lo <= LowCorner(top, bottom)
  {
    assert 2 / 4 % 2 == 0 && 2 / 2 % 2 == 1 && 2 % 2 == 0;
    ReferenceCornerInRange(top, bottom, 2);
  }

  lemma HighCornerIsOne(top: real, bottom: real)
    requires top > 0.0 && bottom > 0.0
    ensures HighCorner(top, bottom) <= ReferenceRange(top, bottom).hi
  {
    assert 5 / 4 % 2 == 1 && 5 / 2 % 2 == 0 && 5 % 2 == 1;
    ReferenceCornerInRange(top, bottom, 5);
  }

  lemma EndsAt(s: seq<real>) returns (kLo: nat, kHi: nat)
    requires s != []
    ensures kLo < |s| && s[kLo] == RangeOf(s).lo && kHi < |s| && s[kHi] == RangeOf(s).hi
  {
    kLo :| 0 <= kLo < |s| && s[kLo] == MinOf(s);
    kHi :| 0 <= kHi < |s| && s[kHi] == MaxOf(s);
  }

  lemma CornerBetweenEnds(top: real, bottom: real, k: nat)
    requires top > 0.0 && bottom > 0.0 && k < 8
    ensures LowCorner(top, bottom) <= ReferenceCorner(top, bottom, k) <= HighCorner(top, bottom)
  {
    var v, t, b := Supply(k / 4 % 2 == 1), End(top, REFERENCE_TOL, k / 2 % 2 == 1),
                   End(bottom, REFERENCE_TOL, k % 2 == 1);
    ReferenceMonotone(Supply(false), End(top, REFERENCE_TOL, true), End(bottom, REFERENCE_TOL, false), v, t, b);
    ReferenceMonotone(v, t, b, Supply(true), End(top, REFERENCE_TOL, false), End(bottom, REFERENCE_TOL, true));
  }

  // ------------------------------------------------ what the verdicts mean ---

  ghost predicate BlockedAtHot(e: real -> real, celsius: real, b: Board)
    requires celsius + ZERO_CELSIUS_K != 0.0 && InTolerance(b)
  {
    TsVolts(e, celsius, b) + COMPARATOR_UNCERTAINTY_V < HotVolts(b)
  }

  ghost predicate BlockedAtCold(e: real -> real, celsius: real, b: Board)
    requires celsius + ZERO_CELSIUS_K != 0.0 && InTolerance(b)
  {
    TsVolts(e, celsius, b) - COMPARATOR_UNCERTAINTY_V > ColdVolts(b)
  }

  ghost predicate Allowed(e: real -> real, celsius: real, b: Board)
    requires celsius + ZERO_CELSIUS_K != 0.0 && InTolerance(b)
  {
    && TsVolts(e, celsius, b) - COMPARATOR_UNCERTAINTY_V > HotVolts(b)
    && TsVolts(e, celsius, b) + COMPARATOR_UNCERTAINTY_V < ColdVolts(b)
  }

  /** Each verdict computed at the corners holds exactly when it holds for every board in the box. */
  lemma VerdictsQuantifyOverBoards(e: real -> real, celsius: real)
    requires IsExponential(e) && celsius + ZERO_CELSIUS_K != 0.0
    ensures ChargeCertainlyBlockedAtHot(e, celsius) <==> forall b | InTolerance(b) :: BlockedAtHot(e, celsius, b)
    ensures ChargeCertainlyBlockedAtCold(e, celsius) <==> forall b | InTolerance(b) :: BlockedAtCold(e, celsius, b)
    ensures ChargeCertainlyAllowed(e, celsius) <==> forall b | InTolerance(b) :: Allowed(e, celsius, b)
  {
    forall b | InTolerance(b)
      ensures ChargeCertainlyBlockedAtHot(e, celsius) ==> BlockedAtHot(e, celsius, b)
      ensures ChargeCertainlyBlockedAtCold(e, celsius) ==> BlockedAtCold(e, celsius, b)
      ensures ChargeCertainlyAllowed(e, celsius) ==> Allowed(e, celsius, b)
    {
      CornersBoundEveryBoard(e, celsius, b);
    }
    var worstHot := CornersAreReached(e, celsius, true, false);
    assert BlockedAtHot(e, celsius, worstHot) ==> ChargeCertainlyBlockedAtHot(e, celsius);
    var worstCold := CornersAreReached(e, celsius, false, true);
    assert BlockedAtCold(e, celsius, worstCold) ==> ChargeCertainlyBlockedAtCold(e, celsius);
    assert Allowed(e, celsius, worstCold) && Allowed(e, celsius, worstHot) ==> ChargeCertainlyAllowed(e, celsius);
  }

  // ------------------------------------------------- all temperatures at once ---

  /** The thermistor voltage of any board falls strictly with temperature. */
  lemma TsFallsWithTemperature(e: real -> real, cold: real, hot: real, b: Board)
    requires IsExponential(e) && InTolerance(b)
    requires 0.0 < cold + ZERO_CELSIUS_K && cold < hot
    ensures TsVolts(e, cold, b) > TsVolts(e, hot, b)
  {
    ReciprocalFalls(cold + ZERO_CELSIUS_K, hot + ZERO_CELSIUS_K);
    VoltsGrow(e, Coefficient(hot), Coefficient(cold), b.r25, b.beta, b.current);
  }

  lemma VoltsGrow(e: real -> real, q: real, q': real, r25: real, beta: real, current: real)
    requires IsExponential(e) && r25 > 0.0 && beta > 0.0 && current > 0.0 && q < q'
    ensures Volts(e, q, r25, beta, current) < Volts(e, q', r25, beta, current)
  {
    MulStrict(beta, q, q');
    ExpIncreasing(e, beta * q, beta * q');
    var x, x' := e(beta * q), e(beta * q');
    MulStrict(r25, x, x');
    MulStrict(current, r25 * x, r25 * x');
  }

  lemma ReciprocalFalls(a: real, b: real)
    requires 0.0 < a < b
    ensures 1.0 / b < 1.0 / a
  {
    var x, y := 1.0 / a, 1.0 / b;
    assert x * a == 1.0 && y * b == 1.0;
    if x <= y { MulMonotone(x, a, y, a); }
  }

  lemma MulStrict(f: real, x: real, y: real)
    requires f > 0.0 && x < y
    ensures f * x < f * y && x * f < y * f
  {}

  lemma VerdictsAreMonotone(e: real -> real, cold: real, hot: real)
    requires IsExponential(e)
    requires 0.0 < cold + ZERO_CELSIUS_K && cold <= hot
    ensures ChargeCertainlyBlockedAtHot(e, cold) ==> ChargeCertainlyBlockedAtHot(e, hot)
    ensures ChargeCertainlyBlockedAtCold(e, hot) ==> ChargeCertainlyBlockedAtCold(e, cold)
  {
    RangeFallsWithTemperature(e, cold, hot);
  }

  lemma RangeFallsWithTemperature(e: real -> real, cold: real, hot: real)
    requires IsExponential(e)
    requires 0.0 < cold + ZERO_CELSIUS_K && cold <= hot
    ensures TsRange(e, hot).lo <= TsRange(e, cold).lo
    ensures TsRange(e, hot).hi <= TsRange(e, cold).hi
  {
    if cold < hot {
      var low := CornersAreReached(e, cold, false, false);
      TsFallsWithTemperature(e, cold, hot, low);
      CornersBoundEveryBoard(e, hot, low);
      var high := CornersAreReached(e, hot, true, false);
      TsFallsWithTemperature(e, cold, hot, high);
      CornersBoundEveryBoard(e, cold, high);
    }
  }

  /** Charging is allowed on an interval of temperatures, and never where it is blocked. */
  lemma AllowedIsAnInterval(e: real -> real, cold: real, mid: real, hot: real)
    requires IsExponential(e)
    requires 0.0 < cold + ZERO_CELSIUS_K && cold <= mid <= hot
    ensures ChargeCertainlyAllowed(e, cold) && ChargeCertainlyAllowed(e, hot) ==> ChargeCertainlyAllowed(e, mid)
  {
    RangeFallsWithTemperature(e, cold, mid);
    RangeFallsWithTemperature(e, mid, hot);
  }

  lemma AllowedExcludesBlocked(e: real -> real, celsius: real)
    requires IsExponential(e) && celsius + ZERO_CELSIUS_K != 0.0
    requires ChargeCertainlyAllowed(e, celsius)
    ensures !ChargeCertainlyBlockedAtHot(e, celsius) && !ChargeCertainlyBlockedAtCold(e, celsius)
  {
    var b := CornersAreReached(e, celsius, true, true);
    CornersBoundEveryBoard(e, celsius, b);
  }

  // ---------------------------------------------------- the asserted numbers ---

  lemma FourthPowerBound(e: real -> real, x: real)
    requires IsExponential(e) && x >= 0.0
    ensures e(4.0 * x) >= (1.0 + x) * (1.0 + x) * (1.0 + x) * (1.0 + x)
  {
    assert AboveTangentAt(e, x) && MultiplicativeAt(e, x, x) && MultiplicativeAt(e, x + x, x + x);
    assert 4.0 * x == x + x + (x + x);
    MulMonotone(1.0 + x, 1.0 + x, e(x), e(x));
    MulMonotone((1.0 + x) * (1.0 + x), (1.0 + x) * (1.0 + x), e(x + x), e(x + x));
  }

  /** exp(-0.7168) < 0.518, from the fourth power of 1 + 0.7168 / 4. */
  lemma DecayBound(e: real -> real)
    requires IsExponential(e)
    ensures e(-0.7168) <= 0.518
  {
    FourthPowerBound(e, 0.1792);
    ExpPositive(e, 0.7168);
    assert 4.0 * 0.1792 == 0.7168;
    var up, down := e(0.7168), e(-0.7168);
    assert up >= 1.9332;
    if down > 0.518 {
      MulMonotone(1.9332, 0.518, up, down);
    }
  }

  lemma TsAt45(e: real -> real, b: Board)
    requires IsExponential(e) && InTolerance(b)
    ensures TsVolts(e, 45.0, b) <= 0.2067
  {
    var q := Coefficient(45.0);
    assert -q >= 0.00021084;
    MulMonotone(3400.65, 0.00021084, b.beta, -q);
    assert b.beta * q == -(b.beta * (-q));
    ExpIncreasing(e, b.beta * q, -0.7168);
    DecayBound(e);
    ExpPositive(e, b.beta * q);
    var decay := e(b.beta * q);
    MulMonotone(b.r25, decay, 10100.0, 0.518);
    MulMonotone(b.r25 * decay, b.current, 10100.0 * 0.518, TS_CURRENT_MAX_A);
  }

  lemma TsAt0(e: real -> real, b: Board)
    requires IsExponential(e) && InTolerance(b)
    ensures TsVolts(e, 0.0, b) >= 0.73
  {
    var q := Coefficient(0.0);
    assert q >= 0.000306;
    MulMonotone(3400.65, 0.000306, b.beta, q);
    assert AboveTangentAt(e, b.beta * q);
    var growth := e(b.beta * q);
    MulMonotone(9900.0, 2.04, b.r25, growth);
    MulMonotone(9900.0 * 2.04, TS_CURRENT_MIN_A, b.r25 * growth, b.current);
  }

  lemma TsAt25(e: real -> real, b: Board)
    requires IsExponential(e) && InTolerance(b)
    ensures 0.361 <= TsVolts(e, 25.0, b) <= 0.399
  {
    ExpPositive(e, 0.0);
    assert Coefficient(25.0) == 0.0 && b.beta * 0.0 == 0.0;
    assert TsVolts(e, 25.0, b) == b.r25 * b.current;
    MulMonotone(9900.0, TS_CURRENT_MIN_A, b.r25, b.current);
    MulMonotone(b.r25, b.current, 10100.0, TS_CURRENT_MAX_A);
  }

  lemma ReferenceNumbers()
    ensures HotRange().lo > 0.2272 && HotRange().hi < 0.284
    ensures ColdRange().lo > 0.502 && ColdRange().hi < 0.625
  {
    ReferenceRangeEnds(HOT_TOP_OHM, HOT_BOTTOM_OHM);
    ReferenceRangeEnds(COLD_TOP_OHM, COLD_BOTTOM_OHM);
  }

  /** The script's three assertions hold with the resistors of the schematic. */
  lemma AssertedTemperatures(e: real -> real)
    requires IsExponential(e)
    ensures ChargeCertainlyBlockedAtHot(e, 45.0)
    ensures ChargeCertainlyBlockedAtCold(e, 0.0)
    ensures ChargeCertainlyAllowed(e, 25.0)
  {
    ReferenceNumbers();
    var hottest := CornersAreReached(e, 45.0, true, false);
    TsAt45(e, hottest);
    var coldest := CornersAreReached(e, 0.0, false, true);
    TsAt0(e, coldest);
    var low := CornersAreReached(e, 25.0, false, true);
    TsAt25(e, low);
    var high := CornersAreReached(e, 25.0, true, false);
    TsAt25(e, high);
  }

  /** The three asserted temperatures settle every temperature above absolute zero, for every board. */
  lemma WindowIsSettled(e: real -> real, celsius: real, b: Board)
    requires IsExponential(e) && 0.0 < celsius + ZERO_CELSIUS_K && InTolerance(b)
    ensures celsius >= 45.0 ==> ChargeCertainlyBlockedAtHot(e, celsius) && BlockedAtHot(e, celsius, b)
    ensures celsius <= 0.0 ==> ChargeCertainlyBlockedAtCold(e, celsius) && BlockedAtCold(e, celsius, b)
    ensures celsius == 25.0 ==> ChargeCertainlyAllowed(e, celsius) && Allowed(e, celsius, b)
  {
    CornersBoundEveryBoard(e, celsius, b);
    AssertedTemperatures(e);
    if celsius >= 45.0 {
      VerdictsAreMonotone(e, 45.0, celsius);
    } else if celsius <= 0.0 {
      VerdictsAreMonotone(e, celsius, 0.0);
    }
  }
}
