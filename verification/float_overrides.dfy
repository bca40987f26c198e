/** The float-valued overrides (font size, halo size, the two thresholds)
    evaluated on Go `float64` values with the comparisons exactly as main.go
    writes them, next to corrected versions that treat a non-finite number
    like an unparseable one. On finite input the two agree with the
    configuration model in `Overrides`. */
module FloatOverrides {
  import opened GoFloat
  import opened Thresholds
  import opened Overrides

  const Zero: Float64 := Finite(0.0)
  const Hundred: Float64 := Finite(100.0)

  /** A variable parsed into a real, seen as the `float64` it parses to. */
  function Lift(e: EnvNumber<real>): (r: EnvNumber<Float64>)
    ensures r.Value? <==> e.Value?
    ensures r.Value? ==> r.v == Finite(e.v)
    ensures r.Unset? <==> e.Unset?
  {
    match e
    case Unset => Unset
    case Unparseable => Unparseable
    case Value(x) => Value(Finite(x))
  }

  /** Font size as written: the variable is dropped when `f <= 0` holds and
      the flag is used when `f > 0` holds. */
  function FontSizeAsWritten(base: Float64, env: EnvNumber<Float64>, flag: Float64): (r: Float64)
    ensures Lt(Zero, flag) ==> r == flag
    ensures !Lt(Zero, flag) && env.Value? && !Le(env.v, Zero) ==> r == env.v
    ensures r == base || r == flag || (env.Value? && r == env.v)
  {
    var v := if env.Value? && !Le(env.v, Zero) then env.v else base;
    if Lt(Zero, flag) then flag else v
  }

  /** Halo size as written: the variable is dropped when `f < 0` holds and
      the flag is used when `f >= 0` holds. */
  function HaloSizeAsWritten(base: Float64, env: EnvNumber<Float64>, flag: Float64): (r: Float64)
    ensures Le(Zero, flag) ==> r == flag
    ensures !Le(Zero, flag) && env.Value? && !Lt(env.v, Zero) ==> r == env.v
    ensures r == base || r == flag || (env.Value? && r == env.v)
  {
    var v := if env.Value? && !Lt(env.v, Zero) then env.v else base;
    if Le(Zero, flag) then flag else v
  }

  /** One threshold as written: the variable is dropped when
      `f <= 0 || f > 100` holds and the flag is used when
      `f > 0 && f <= 100` holds. */
  function ThresholdAsWritten(base: Float64, env: EnvNumber<Float64>, flag: Float64): (r: Float64)
    ensures Lt(Zero, flag) && Le(flag, Hundred) ==> r == flag
    ensures !(Lt(Zero, flag) && Le(flag, Hundred)) && env.Value? && !(Le(env.v, Zero) || Lt(Hundred, env.v)) ==>
      r == env.v
    ensures r == base || r == flag || (env.Value? && r == env.v)
  {
    var v := if env.Value? && !(Le(env.v, Zero) || Lt(Hundred, env.v)) then env.v else base;
    if Lt(Zero, flag) && Le(flag, Hundred) then flag else v
  }

  /** The closing swap as written: only when `warning >= critical` holds. */
  function OrderAsWritten(warning: Float64, critical: Float64): (r: (Float64, Float64))
    ensures Le(critical, warning) ==> r == (critical, warning)
    ensures !Le(critical, warning) ==> r == (warning, critical)
  {
    if Le(critical, warning) then (critical, warning) else (warning, critical)
  }

  /** Both thresholds as main.go computes them from the file's values, the
      two variables and the two flags. */
  function ThresholdsAsWritten(base: Thresholds, envWarning: EnvNumber<Float64>, envCritical: EnvNumber<Float64>,
                               flagWarning: Float64, flagCritical: Float64): (r: (Float64, Float64))
    ensures var w := ThresholdAsWritten(Finite(base.warning), envWarning, flagWarning);
      var c := ThresholdAsWritten(Finite(base.critical), envCritical, flagCritical);
      r == (w, c) || r == (c, w)
  {
    OrderAsWritten(
      ThresholdAsWritten(Finite(base.warning), envWarning, flagWarning),
      ThresholdAsWritten(Finite(base.critical), envCritical, flagCritical))
  }

  /** CLAUDE_QUOTA_WARNING_THRESHOLD=NaN passes both range checks, after
      which `warning >= critical` is false and the swap is skipped: the
      warning level ends up NaN and not at or below the critical level. */
  lemma NaNWarningDefeatsOrdering()
    ensures var r := ThresholdsAsWritten(Thresholds(60.0, 85.0), Value(NaN), Unset, Zero, Zero);
      r.0 == NaN && !Le(r.0, r.1)
  {
    NaNIsUnordered(Finite(85.0));
  }

  /** The size checks let non-finite values through: "NaN" and "Inf" from
      the font-size variable, "NaN" from the halo variable, and "Inf" from
      either flag. */
  lemma NonFiniteSizesAccepted()
    ensures FontSizeAsWritten(Finite(34.0), Value(NaN), Zero) == NaN
    ensures FontSizeAsWritten(Finite(34.0), Value(PosInf), Zero) == PosInf
    ensures FontSizeAsWritten(Finite(34.0), Unset, PosInf) == PosInf
    ensures HaloSizeAsWritten(Finite(2.0), Value(NaN), Finite(-1.0)) == NaN
    ensures HaloSizeAsWritten(Finite(2.0), Unset, PosInf) == PosInf
  {
  }

  /** A parsed variable the configuration can use: a non-finite number is
      treated like text that does not parse. */
  function FiniteEnv(e: EnvNumber<Float64>): (r: EnvNumber<real>)
    ensures r.Value? <==> e.Value? && e.v.Finite?
    ensures r.Value? ==> e.v == Finite(r.v)
    ensures r.Unset? <==> e.Unset?
  {
    match e
    case Value(Finite(x)) => Value(x)
    case Value(_) => Unparseable
    case Unset => Unset
    case Unparseable => Unparseable
  }

  /** A flag the configuration can use: a non-finite flag counts as not
      given, i.e. as the flag's unset value. */
  function FiniteFlag(f: Float64, unset: real): (r: real)
    ensures f.Finite? ==> r == f.value
    ensures !f.Finite? ==> r == unset
  {
    if f.Finite? then f.value else unset
  }

  /** Corrected font size: always a finite number, positive when the file's
      value is, and taken from the file, the variable or the flag. */
  function FontSizeCorrected(base: real, env: EnvNumber<Float64>, flag: Float64): (r: real)
    ensures base > 0.0 ==> r > 0.0
    ensures r == base || flag == Finite(r) || (env.Value? && env.v == Finite(r))
  {
    OverrideFontSize(base, FiniteEnv(env), FiniteFlag(flag, 0.0))
  }

  /** Corrected halo size: always a finite number, non-negative when the
      file's value is, and taken from the file, the variable or the flag. */
  function HaloSizeCorrected(base: real, env: EnvNumber<Float64>, flag: Float64): (r: real)
    ensures base >= 0.0 ==> r >= 0.0
    ensures r == base || flag == Finite(r) || (env.Value? && env.v == Finite(r))
  {
    OverrideHaloSize(base, FiniteEnv(env), FiniteFlag(flag, -1.0))
  }

  /** Corrected thresholds: always ordered, and both in (0, 100] when the
      file's pair is. */
  function ThresholdsCorrected(base: Thresholds, envWarning: EnvNumber<Float64>, envCritical: EnvNumber<Float64>,
                               flagWarning: Float64, flagCritical: Float64): (t: Thresholds)
    ensures t.warning <= t.critical
    ensures Ordered(base) ==> Ordered(t)
  {
    var w := OverrideThreshold(base.warning, FiniteEnv(envWarning), FiniteFlag(flagWarning, 0.0));
    var c := OverrideThreshold(base.critical, FiniteEnv(envCritical), FiniteFlag(flagCritical, 0.0));
    assert Ordered(base) ==> IsPercent(w) && IsPercent(c);
    OrderThresholds(Thresholds(w, c))
  }

  /** On finite input the size checks as written and the configuration
      model agree. */
  lemma {:induction false} SizesAgreeOnFinite(base: real, env: EnvNumber<real>, flag: real)
    ensures FontSizeAsWritten(Finite(base), Lift(env), Finite(flag)) == Finite(OverrideFontSize(base, env, flag))
    ensures HaloSizeAsWritten(Finite(base), Lift(env), Finite(flag)) == Finite(OverrideHaloSize(base, env, flag))
  {
    FiniteComparisons(0.0, flag);
    FiniteComparisons(flag, 0.0);
    if env.Value? {
      FiniteComparisons(env.v, 0.0);
      FiniteComparisons(0.0, env.v);
    }
  }

  /** On finite input the thresholds as written and the configuration
      model agree, swap included. */
  lemma {:induction false} ThresholdsAgreeOnFinite(base: Thresholds, envWarning: EnvNumber<real>, envCritical: EnvNumber<real>,
                                                   flagWarning: real, flagCritical: real)
    ensures var t := OrderThresholds(Thresholds(
        OverrideThreshold(base.warning, envWarning, flagWarning),
        OverrideThreshold(base.critical, envCritical, flagCritical)));
      ThresholdsAsWritten(base, Lift(envWarning), Lift(envCritical), Finite(flagWarning), Finite(flagCritical))
        == (Finite(t.warning), Finite(t.critical))
  {
    ThresholdAgreesOnFinite(base.warning, envWarning, flagWarning);
    ThresholdAgreesOnFinite(base.critical, envCritical, flagCritical);
    var w := OverrideThreshold(base.warning, envWarning, flagWarning);
    var c := OverrideThreshold(base.critical, envCritical, flagCritical);
    FiniteComparisons(c, w);
  }

  lemma {:induction false} ThresholdAgreesOnFinite(base: real, env: EnvNumber<real>, flag: real)
    ensures ThresholdAsWritten(Finite(base), Lift(env), Finite(flag)) == Finite(OverrideThreshold(base, env, flag))
  {
    FiniteComparisons(0.0, flag);
    FiniteComparisons(flag, 100.0);
    if env.Value? {
      FiniteComparisons(env.v, 0.0);
      FiniteComparisons(100.0, env.v);
    }
  }

  /** The corrected versions keep every finite input the code accepts: on
      finite input they are the configuration model. */
  lemma CorrectedMatchesModelOnFinite(base: real, env: EnvNumber<real>, flag: real,
                                      thresholds: Thresholds, envCritical: EnvNumber<real>, flagCritical: real)
    ensures FontSizeCorrected(base, Lift(env), Finite(flag)) == OverrideFontSize(base, env, flag)
    ensures HaloSizeCorrected(base, Lift(env), Finite(flag)) == OverrideHaloSize(base, env, flag)
    ensures ThresholdsCorrected(thresholds, Lift(env), Lift(envCritical), Finite(flag), Finite(flagCritical))
      == OrderThresholds(Thresholds(
        OverrideThreshold(thresholds.warning, env, flag),
        OverrideThreshold(thresholds.critical, envCritical, flagCritical)))
  {
    assert FiniteEnv(Lift(env)) == env;
    assert FiniteEnv(Lift(envCritical)) == envCritical;
  }
}
