/**
 Quota conversions of common/quota_math.go and the settlement of channel tests.
 A float is a real number, an infinity or NaN; the rounding of float products is not modelled.
 */
module QuotaMath {

  const MAX_QUOTA := 2147483647
  const MIN_QUOTA := -2147483648

  datatype Float = NaN | NegInf | PosInf | Finite(r: real)

  datatype ClampKind = Overflow | Underflow | NotANumber

  datatype Converted = Exact(quota: int) | Clamped(quota: int, kind: ClampKind)

  datatype Strict = Accepted(quota: int) | Refused(kind: ClampKind)

  predicate Above(v: Float, bound: int) {
    v.PosInf? || (v.Finite? && v.r > bound as real)
  }

  predicate Below(v: Float, bound: int) {
    v.NegInf? || (v.Finite? && v.r < bound as real)
  }

  /** Truncation toward zero. */
  function Trunc(r: real): int {
    if r >= 0.0 then r.Floor else -((-r).Floor)
  }

  /** Rounding to the nearest integer, halves away from zero. */
  function RoundReal(r: real): int {
    if r >= 0.0 then (r + 0.5).Floor else -((-r + 0.5).Floor)
  }

  function Round(v: Float): Float {
    if v.Finite? then Finite(RoundReal(v.r) as real) else v
  }

  function Saturate(v: Float): Converted {
    if v.NaN? then Clamped(0, NotANumber)
    else if Above(v, MAX_QUOTA) then Clamped(MAX_QUOTA, Overflow)
    else if Below(v, MIN_QUOTA) then Clamped(MIN_QUOTA, Underflow)
    else Exact(Trunc(v.r))
  }

  function AtLeastOne(v: Float, c: Converted): Converted {
    if c.Exact? && (v.PosInf? || (v.Finite? && v.r > 0.0)) && c.quota == 0 then Exact(1) else c
  }

  function ToStrict(c: Converted): Strict {
    match c
    case Exact(quota) => Accepted(quota)
    case Clamped(_, kind) => Refused(kind)
  }

  function QuotaFromFloat(v: Float): Converted { Saturate(v) }
  function QuotaFromPositiveFloat(v: Float): Converted { AtLeastOne(v, QuotaFromFloat(v)) }
  function QuotaRound(v: Float): Converted { Saturate(Round(v)) }
  function QuotaRoundPositive(v: Float): Converted { AtLeastOne(v, QuotaRound(v)) }

  // ---------------------------------------------------------------- range and clamps

  /** Truncation and rounding give the integers their names promise. */
  lemma TruncAndRound(r: real)
    ensures -1.0 < Trunc(r) as real - r < 1.0 && (r >= 0.0 ==> 0.0 <= Trunc(r) as real <= r) &&
            (r <= 0.0 ==> r <= Trunc(r) as real <= 0.0)
    ensures -0.5 <= RoundReal(r) as real - r <= 0.5
    ensures r - RoundReal(r) as real == 0.5 ==> r < 0.0
    ensures RoundReal(r) as real - r == 0.5 ==> r > 0.0
  {
  }

  lemma RoundOfInteger(n: int)
    ensures RoundReal(n as real) == n == Trunc(n as real)
  {
  }

  /** Truncating conversions report a clamp exactly for NaN and for values outside the range. */
  lemma FromFloatClampsIff(v: Float)
    ensures QuotaFromFloat(v).Clamped? <==> v.NaN? || Above(v, MAX_QUOTA) || Below(v, MIN_QUOTA)
    ensures QuotaFromPositiveFloat(v).Clamped? <==> QuotaFromFloat(v).Clamped?
    ensures MIN_QUOTA <= QuotaFromPositiveFloat(v).quota <= MAX_QUOTA &&
            MIN_QUOTA <= QuotaFromFloat(v).quota <= MAX_QUOTA
  {
    if v.Finite? {
      TruncAndRound(v.r);
    }
  }

  /** Rounding conversions judge the range after rounding, half a unit further out. */
  lemma RoundClampsIff(v: Float)
    ensures QuotaRound(v).Clamped? <==>
              || v.NaN? || v.PosInf? || v.NegInf?
              || v.r >= MAX_QUOTA as real + 0.5
              || v.r <= MIN_QUOTA as real - 0.5
    ensures QuotaRoundPositive(v).Clamped? <==> QuotaRound(v).Clamped?
    ensures MIN_QUOTA <= QuotaRoundPositive(v).quota <= MAX_QUOTA && MIN_QUOTA <= QuotaRound(v).quota <= MAX_QUOTA
  {
    if v.Finite? {
      TruncAndRound(v.r);
      RoundOfInteger(RoundReal(v.r));
    }
  }

  /** What a conversion gives: the number toward zero or the nearest one, the bound it passed, or nothing for NaN. */
  lemma ConversionValues(v: Float)
    ensures v.NaN? ==> QuotaFromFloat(v).quota == 0 && QuotaRound(v).quota == 0
    ensures v.PosInf? ==> QuotaFromFloat(v).quota == QuotaRound(v).quota == 2147483647
    ensures v.NegInf? ==> QuotaFromFloat(v).quota == QuotaRound(v).quota == -2147483648
    ensures v.Finite? && v.r > 2147483647.0 ==> QuotaFromFloat(v).quota == 2147483647
    ensures v.Finite? && v.r < -2147483648.0 ==> QuotaFromFloat(v).quota == -2147483648
    ensures v.Finite? && 0.0 <= v.r <= 2147483647.0 ==>
      QuotaFromFloat(v).quota as real <= v.r < QuotaFromFloat(v).quota as real + 1.0
    ensures v.Finite? && -2147483648.0 <= v.r <= 0.0 ==>
      QuotaFromFloat(v).quota as real - 1.0 < v.r <= QuotaFromFloat(v).quota as real
    ensures v.Finite? && -2147483648.5 < v.r < 2147483647.5 ==> -0.5 <= QuotaRound(v).quota as real - v.r <= 0.5
  {
    if v.Finite? {
      TruncAndRound(v.r);
      RoundOfInteger(RoundReal(v.r));
    }
  }

  /** A positive amount costs at least one; otherwise the positive forms are the plain ones. */
  lemma PositiveFloor(v: Float)
    ensures v.Finite? && v.r > 0.0 ==> QuotaFromPositiveFloat(v).quota >= 1 && QuotaRoundPositive(v).quota >= 1
    ensures QuotaFromPositiveFloat(v).quota == QuotaFromFloat(v).quota ||
            (v.Finite? && v.r > 0.0 && QuotaFromFloat(v).quota == 0 && QuotaFromPositiveFloat(v).quota == 1)
    ensures QuotaRoundPositive(v).quota == QuotaRound(v).quota ||
            (v.Finite? && v.r > 0.0 && QuotaRound(v).quota == 0 && QuotaRoundPositive(v).quota == 1)
  {
    if v.Finite? {
      TruncAndRound(v.r);
      RoundOfInteger(RoundReal(v.r));
    }
  }

  /** Strict forms refuse exactly the values that a clamp would be reported for, and otherwise convert alike. */
  lemma StrictFailsIff(v: Float)
    ensures ToStrict(QuotaFromFloat(v)).Refused? <==> v.NaN? || Above(v, MAX_QUOTA) || Below(v, MIN_QUOTA)
    ensures ToStrict(QuotaFromPositiveFloat(v)).Refused? <==> v.NaN? || Above(v, MAX_QUOTA) || Below(v, MIN_QUOTA)
    ensures ToStrict(QuotaRound(v)).Refused? <==>
              || v.NaN? || v.PosInf? || v.NegInf?
              || v.r >= MAX_QUOTA as real + 0.5
              || v.r <= MIN_QUOTA as real - 0.5
    ensures ToStrict(QuotaRoundPositive(v)).Refused? <==> ToStrict(QuotaRound(v)).Refused?
    ensures forall c :: c in [QuotaFromFloat(v), QuotaFromPositiveFloat(v), QuotaRound(v), QuotaRoundPositive(v)] ==>
              (c.Exact? ==> ToStrict(c) == Accepted(c.quota))
  {
    FromFloatClampsIff(v);
    RoundClampsIff(v);
  }

  // ---------------------------------------------------------------- order

  predicate AtMost(a: Float, b: Float) {
    a.NegInf? || b.PosInf? || (a.Finite? && b.Finite? && a.r <= b.r)
  }

  lemma SaturateMonotone(a: Float, b: Float)
    requires !a.NaN? && !b.NaN? && AtMost(a, b)
    ensures Saturate(a).quota <= Saturate(b).quota
  {
    if a.Finite? && b.Finite? {
      TruncMonotone(a.r, b.r);
      TruncAndRound(a.r);
      TruncAndRound(b.r);
    } else if a.Finite? {
      TruncAndRound(a.r);
    } else if b.Finite? {
      TruncAndRound(b.r);
    }
  }

  lemma TruncMonotone(a: real, b: real)
    requires a <= b
    ensures Trunc(a) <= Trunc(b) && RoundReal(a) <= RoundReal(b)
  {
    TruncAndRound(a);
    TruncAndRound(b);
  }

  /** All four conversions preserve order, clamps and the one-quota floor included. */
  lemma ConversionsMonotone(a: Float, b: Float)
    requires !a.NaN? && !b.NaN? && AtMost(a, b)
    ensures QuotaFromFloat(a).quota <= QuotaFromFloat(b).quota
    ensures QuotaRound(a).quota <= QuotaRound(b).quota
    ensures QuotaFromPositiveFloat(a).quota <= QuotaFromPositiveFloat(b).quota
    ensures QuotaRoundPositive(a).quota <= QuotaRoundPositive(b).quota
  {
    SaturateMonotone(a, b);
    if a.Finite? && b.Finite? {
      TruncMonotone(a.r, b.r);
    }
    SaturateMonotone(Round(a), Round(b));
  }

  // ---------------------------------------------------------------- settlement of a channel test

  datatype Price = Price(usePrice: bool, modelPrice: real, modelRatio: real, completionRatio: real)

  function Times(a: real, b: real): real {
    a * b
  }

  function CompletionQuota(completion: int, price: Price): Converted {
    QuotaRound(Finite(Times(completion as real, price.completionRatio)))
  }

  function TokenQuota(prompt: int, completion: int, price: Price): Converted {
    QuotaRound(Finite(prompt as real + CompletionQuota(completion, price).quota as real))
  }

  function RatioQuota(prompt: int, completion: int, price: Price): Converted {
    QuotaRound(Finite(Times(TokenQuota(prompt, completion, price).quota as real, price.modelRatio)))
  }

  function SettleTestQuota(prompt: int, completion: int, price: Price, quotaPerUnit: real): int {
    if price.usePrice then QuotaFromFloat(Finite(price.modelPrice * quotaPerUnit)).quota
    else
      var quota := RatioQuota(prompt, completion, price).quota;
      if price.modelRatio != 0.0 && quota <= 0 then 1 else quota
  }

  /**
   Three roundings in a row stay close to the exact price: without a clamp the charge differs from
   (prompt + completion * completionRatio) * modelRatio by at most (modelRatio + 1) / 2.
   */
  lemma SettlementError(prompt: int, completion: int, price: Price)
    requires price.modelRatio >= 0.0 && price.completionRatio >= 0.0
    requires CompletionQuota(completion, price).Exact? && TokenQuota(prompt, completion, price).Exact?
    requires RatioQuota(prompt, completion, price).Exact?
    ensures var exact := Times(prompt as real + Times(completion as real, price.completionRatio), price.modelRatio);
            var error := RatioQuota(prompt, completion, price).quota as real - exact;
            -(price.modelRatio + 1.0) / 2.0 <= error <= (price.modelRatio + 1.0) / 2.0
  {
    hide QuotaRound, Times;
    var c := Times(completion as real, price.completionRatio);
    var q1 := CompletionQuota(completion, price).quota;
    ExactIsRounded(c);
    TokensAddExactly(prompt, completion, price);
    var q2 := TokenQuota(prompt, completion, price).quota;
    ExactIsRounded(Times(q2 as real, price.modelRatio));
    TimesDistributes(q2 as real, prompt as real + c, price.modelRatio);
    ScaleBound(q1 as real - c, price.modelRatio);
  }

  lemma TimesDistributes(a: real, b: real, ratio: real)
    ensures Times(a, ratio) - Times(b, ratio) == Times(a - b, ratio)
  {
  }

  lemma ExactIsRounded(r: real)
    requires QuotaRound(Finite(r)).Exact?
    ensures QuotaRound(Finite(r)).quota == RoundReal(r)
    ensures -0.5 <= QuotaRound(Finite(r)).quota as real - r <= 0.5
  {
    TruncAndRound(r);
    RoundOfInteger(RoundReal(r));
  }

  lemma TokensAddExactly(prompt: int, completion: int, price: Price)
    requires TokenQuota(prompt, completion, price).Exact?
    ensures TokenQuota(prompt, completion, price).quota == prompt + CompletionQuota(completion, price).quota
  {
    var sum := prompt + CompletionQuota(completion, price).quota;
    assert sum as real == prompt as real + CompletionQuota(completion, price).quota as real;
    ExactIsRounded(sum as real);
    RoundOfInteger(sum);
  }

  lemma ProductNonNegative(a: real, b: real)
    requires a >= 0.0 && b >= 0.0
    ensures Times(a, b) >= 0.0
  {
  }

  lemma ScaleBound(slip: real, ratio: real)
    requires -0.5 <= slip <= 0.5 && ratio >= 0.0
    ensures -ratio / 2.0 <= Times(slip, ratio) <= ratio / 2.0
  {
    ProductNonNegative(0.5 - slip, ratio);
    ProductNonNegative(0.5 + slip, ratio);
    assert Times(0.5 - slip, ratio) == 0.5 * ratio - slip * ratio;
    assert Times(0.5 + slip, ratio) == 0.5 * ratio + slip * ratio;
  }

  /** A test on a priced model is never free: the floor of one quota applies exactly to zero charges and below. */
  lemma SettlementFloor(prompt: int, completion: int, price: Price, quotaPerUnit: real)
    requires !price.usePrice
    ensures var charged := SettleTestQuota(prompt, completion, price, quotaPerUnit);
            && (price.modelRatio != 0.0 ==> charged >= 1)
            && (price.modelRatio == 0.0 ==> charged == 0)
            && (RatioQuota(prompt, completion, price).quota >= 1 ==>
                charged == RatioQuota(prompt, completion, price).quota)
  {
    if price.modelRatio == 0.0 {
      RoundOfInteger(0);
      assert Times(TokenQuota(prompt, completion, price).quota as real, 0.0) == 0 as real;
    }
  }

  /** A test at a fixed price costs that price, in whole quota and within the range, whatever was used. */
  lemma FixedPrice(prompt: int, completion: int, price: Price, quotaPerUnit: real)
    requires price.usePrice
    ensures var exact := price.modelPrice * quotaPerUnit;
      var charged := SettleTestQuota(prompt, completion, price, quotaPerUnit);
      && (0.0 <= exact <= 2147483647.0 ==> charged as real <= exact < charged as real + 1.0)
      && (exact > 2147483647.0 ==> charged == 2147483647)
  {
    ConversionValues(Finite(price.modelPrice * quotaPerUnit));
  }
}
