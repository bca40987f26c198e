/** Command-line flags and environment variables laid over the loaded
    configuration, with priority flag > environment > file. Environment
    values arrive already parsed; reading the process environment is not
    modelled. */
module Overrides {
  import opened Wrappers
  import opened Thresholds
  import opened Icon
  import opened Settings

  /** A numeric environment variable: unset (empty), not a number, or a number. */
  datatype EnvNumber<T> = Unset | Unparseable | Value(v: T)

  /** The environment variables the widget reads. String variables are the
      raw text; the empty string means unset. */
  datatype Environment = Environment(
    pollInterval: EnvNumber<int>,
    fontSize: EnvNumber<real>,
    fontName: string,
    haloSize: EnvNumber<real>,
    iconSize: EnvNumber<int>,
    indicator: string,
    showText: string,
    warningThreshold: EnvNumber<real>,
    criticalThreshold: EnvNumber<real>)

  /** The command-line flag values. A number flag at or below zero is unset,
      except the halo, where any negative value is unset and 0 is a value. */
  datatype Flags = Flags(
    pollInterval: int,
    fontSize: real,
    fontName: string,
    haloSize: real,
    iconSize: int,
    indicator: string,
    showText: Option<bool>,
    warningThreshold: real,
    criticalThreshold: real)

  /** Layers an optional environment value and an optional flag value over a
      base value: a usable flag wins, else a usable environment value, else
      the base is kept. */
  function Layer<T>(base: T, env: Option<T>, flag: Option<T>): (r: T)
    ensures flag.Some? ==> r == flag.value
    ensures flag.None? && env.Some? ==> r == env.value
    ensures flag.None? && env.None? ==> r == base
  {
    if flag.Some? then flag.value else if env.Some? then env.value else base
  }

  /** A numeric environment value, when it parsed and passes `ok`. */
  function EnvIf<T>(e: EnvNumber<T>, ok: T -> bool): (r: Option<T>)
    ensures r.Some? <==> e.Value? && ok(e.v)
    ensures r.Some? ==> r.value == e.v
  {
    if e.Value? && ok(e.v) then Some(e.v) else None
  }

  /** A value, when it passes `ok`. */
  function If<T>(x: T, ok: T -> bool): (r: Option<T>)
    ensures r.Some? <==> ok(x)
    ensures r.Some? ==> r.value == x
  {
    if ok(x) then Some(x) else None
  }

  predicate IsPercent(x: real) {
    0.0 < x <= 100.0
  }

  /** The show-text environment value: only "true"/"1" and "false"/"0" count. */
  function EnvShowText(v: string): (r: Option<bool>)
    ensures r == Some(true) <==> v == "true" || v == "1"
    ensures r == Some(false) <==> v == "false" || v == "0"
  {
    if v == "true" || v == "1" then Some(true)
    else if v == "false" || v == "0" then Some(false)
    else None
  }

  /** A whole-number setting (poll interval, icon size): a positive flag, else
      a positive environment value, else the file. */
  function OverridePositive(base: int, env: EnvNumber<int>, flag: int): (r: int)
    ensures r == Layer(base, EnvIf(env, (i: int) => i > 0), If(flag, (i: int) => i > 0))
  {
    var v := if env.Value? && env.v > 0 then env.v else base;
    if flag > 0 then flag else v
  }

  /** Font size: a positive flag, else a positive environment value, else the file. */
  function OverrideFontSize(base: real, env: EnvNumber<real>, flag: real): (r: real)
    ensures r == Layer(base, EnvIf(env, (f: real) => f > 0.0), If(flag, (f: real) => f > 0.0))
  {
    var v := if env.Value? && env.v > 0.0 then env.v else base;
    if flag > 0.0 then flag else v
  }

  /** Font name: a known flag, else a known environment value, else the file. */
  function OverrideFontName(base: string, env: string, flag: string): (r: string)
    ensures r == Layer(base, If(env, ValidFontName), If(flag, ValidFontName))
  {
    var v := if env != "" && ValidFontName(env) then env else base;
    if flag != "" && ValidFontName(flag) then flag else v
  }

  /** Halo: a non-negative flag (0 disables the halo), else a non-negative
      environment value, else the file. */
  function OverrideHaloSize(base: real, env: EnvNumber<real>, flag: real): (r: real)
    ensures r == Layer(base, EnvIf(env, (f: real) => f >= 0.0), If(flag, (f: real) => f >= 0.0))
  {
    var v := if env.Value? && env.v >= 0.0 then env.v else base;
    if flag >= 0.0 then flag else v
  }

  /** Indicator: a known flag, else a known environment value, else the file. */
  function OverrideIndicator(base: string, env: string, flag: string): (r: string)
    ensures r == Layer(base, If(env, ValidIndicatorName), If(flag, ValidIndicatorName))
  {
    var v := if env != "" && ValidIndicatorName(env) then env else base;
    if flag != "" && ValidIndicatorName(flag) then flag else v
  }

  /** Show-text: a given flag, else a recognised environment value, else the file. */
  function OverrideShowText(base: Option<bool>, env: string, flag: Option<bool>): (r: Option<bool>)
    ensures flag.Some? ==> r == flag
    ensures flag.None? && EnvShowText(env).Some? ==> r == EnvShowText(env)
    ensures flag.None? && EnvShowText(env).None? ==> r == base
  {
    var v := match EnvShowText(env) case Some(b) => Some(b) case None => base;
    if flag.Some? then flag else v
  }

  /** A threshold: a flag in (0, 100], else an environment value in (0, 100],
      else the file; a flag above 100 is ignored. */
  function OverrideThreshold(base: real, env: EnvNumber<real>, flag: real): (r: real)
    ensures r == Layer(base, EnvIf(env, IsPercent), If(flag, IsPercent))
  {
    var v := if env.Value? && IsPercent(env.v) then env.v else base;
    if flag > 0.0 && flag <= 100.0 then flag else v
  }

  /** The configuration after environment variables and flags. Thresholds are
      put in order at the end, so warning never exceeds critical. */
  function ApplyOverrides(cfg: Config, env: Environment, flags: Flags): (r: Config)
    ensures r.claudeHome == cfg.claudeHome
    ensures r.pollIntervalSeconds == OverridePositive(cfg.pollIntervalSeconds, env.pollInterval, flags.pollInterval)
    ensures r.fontSize == OverrideFontSize(cfg.fontSize, env.fontSize, flags.fontSize)
    ensures r.fontName == OverrideFontName(cfg.fontName, env.fontName, flags.fontName)
    ensures r.haloSize == OverrideHaloSize(cfg.haloSize, env.haloSize, flags.haloSize)
    ensures r.iconSize == OverridePositive(cfg.iconSize, env.iconSize, flags.iconSize)
    ensures r.indicator == OverrideIndicator(cfg.indicator, env.indicator, flags.indicator)
    ensures r.showText == OverrideShowText(cfg.showText, env.showText, flags.showText)
    ensures r.thresholds.warning <= r.thresholds.critical
    ensures multiset{r.thresholds.warning, r.thresholds.critical} == multiset{
      OverrideThreshold(cfg.thresholds.warning, env.warningThreshold, flags.warningThreshold),
      OverrideThreshold(cfg.thresholds.critical, env.criticalThreshold, flags.criticalThreshold)}
  {
    Config(
      cfg.claudeHome,
      OverridePositive(cfg.pollIntervalSeconds, env.pollInterval, flags.pollInterval),
      OverrideFontSize(cfg.fontSize, env.fontSize, flags.fontSize),
      OverrideFontName(cfg.fontName, env.fontName, flags.fontName),
      OverrideHaloSize(cfg.haloSize, env.haloSize, flags.haloSize),
      OverridePositive(cfg.iconSize, env.iconSize, flags.iconSize),
      OverrideIndicator(cfg.indicator, env.indicator, flags.indicator),
      OverrideShowText(cfg.showText, env.showText, flags.showText),
      OrderThresholds(Thresholds(
        OverrideThreshold(cfg.thresholds.warning, env.warningThreshold, flags.warningThreshold),
        OverrideThreshold(cfg.thresholds.critical, env.criticalThreshold, flags.criticalThreshold))))
  }

  /** Without a show-text flag and without a recognised show-text variable,
      whether the text is drawn is left as the file says. */
  lemma ShowTextUntouched(cfg: Config, env: Environment, flags: Flags)
    requires flags.showText.None? && EnvShowText(env.showText).None?
    ensures ConfigShowText(ApplyOverrides(cfg, env, flags)) == ConfigShowText(cfg)
  {
  }

  /** Flags that set nothing: the values the flag parser leaves untouched. */
  const NoFlags: Flags := Flags(0, 0.0, "", -1.0, 0, "", None, 0.0, 0.0)

  /** An environment that sets nothing. */
  const NoEnvironment: Environment :=
    Environment(Unset, Unset, "", Unset, Unset, "", "", Unset, Unset)

  /** Overrides never break a valid configuration: every accepted value is
      itself in range, and the thresholds end up ordered. */
  lemma {:induction false} ApplyOverridesKeepsValid(cfg: Config, env: Environment, flags: Flags)
    requires Valid(cfg)
    ensures Valid(ApplyOverrides(cfg, env, flags))
  {
    var w := OverrideThreshold(cfg.thresholds.warning, env.warningThreshold, flags.warningThreshold);
    var k := OverrideThreshold(cfg.thresholds.critical, env.criticalThreshold, flags.criticalThreshold);
    assert IsPercent(w) && IsPercent(k);
  }

  /** With nothing set on the command line or in the environment, a valid
      configuration comes through unchanged. */
  lemma {:induction false} NoOverridesIsIdentity(cfg: Config)
    requires Valid(cfg)
    ensures ApplyOverrides(cfg, NoEnvironment, NoFlags) == cfg
  {
    assert !ValidFontName("") && !ValidIndicatorName("");
    assert EnvShowText("") == None;
    assert OrderThresholds(cfg.thresholds) == cfg.thresholds;
  }
}
