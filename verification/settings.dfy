/** The widget configuration: its defaults and the validation applied after
    the configuration file has been decoded. Reading and writing the file
    are not modelled; the decoded document is an input. */
module Settings {
  import opened Wrappers
  import opened Thresholds
  import opened Icon

  datatype Config = Config(
    claudeHome: string,
    pollIntervalSeconds: int,
    fontSize: real,
    fontName: string,
    haloSize: real,
    iconSize: int,
    indicator: string,
    showText: Option<bool>,
    thresholds: Thresholds)

  /** Every setting is usable by the renderer and the poller. */
  predicate Valid(c: Config) {
    && c.pollIntervalSeconds > 0
    && c.fontSize > 0.0
    && ValidFontName(c.fontName)
    && c.haloSize >= 0.0
    && c.iconSize > 0
    && ValidIndicatorName(c.indicator)
    && c.showText.Some?
    && Ordered(c.thresholds)
  }

  const DefaultWarning: real := 60.0
  const DefaultCritical: real := 85.0

  /** The built-in configuration. */
  function DefaultConfig(): (c: Config)
    ensures Valid(c)
    ensures c.pollIntervalSeconds == 300 && c.iconSize == 64
    ensures c.fontSize == 34.0 && c.fontName == "bold" && c.haloSize == 2.0
    ensures c.indicator == "pie" && c.showText == Some(true) && c.claudeHome == ""
    ensures c.thresholds == Thresholds(60.0, 85.0)
  {
    Config("", 300, 34.0, "bold", 2.0, 64, "pie", Some(true), Thresholds(DefaultWarning, DefaultCritical))
  }

  /** Whether to draw the percentage text; an unset choice means yes. */
  function ConfigShowText(c: Config): (show: bool)
    ensures c.showText.None? ==> show
    ensures c.showText.Some? ==> show == c.showText.value
  {
    c.showText.GetOr(true)
  }

  /** Validation never changes whether the text is drawn: an unset choice
      meant "draw" before and is made explicit. */
  lemma SanitizeKeepsShowText(c: Config)
    ensures ConfigShowText(Sanitize(c)) == ConfigShowText(c)
    ensures Sanitize(c).showText.Some?
  {
  }

  /** A threshold if it is a percentage in (0, 100], else the default. */
  function ThresholdOr(x: real, default: real): (r: real)
    requires 0.0 < default <= 100.0
    ensures 0.0 < r <= 100.0
    ensures 0.0 < x <= 100.0 ==> r == x
    ensures !(0.0 < x <= 100.0) ==> r == default
  {
    if x <= 0.0 || x > 100.0 then default else x
  }

  /** The post-decoding validation: each out-of-range or unknown setting is
      replaced by its default, an unset text choice gets the default, and the
      thresholds are put in order. */
  function Sanitize(c: Config): (r: Config)
    ensures Valid(r)
    ensures r.claudeHome == c.claudeHome
    ensures r.iconSize == if c.iconSize > 0 then c.iconSize else DefaultConfig().iconSize
    ensures r.fontSize == if c.fontSize > 0.0 then c.fontSize else DefaultConfig().fontSize
    ensures r.pollIntervalSeconds == if c.pollIntervalSeconds > 0 then c.pollIntervalSeconds else DefaultConfig().pollIntervalSeconds
    ensures r.haloSize == if c.haloSize >= 0.0 then c.haloSize else DefaultConfig().haloSize
    ensures r.fontName == if ValidFontName(c.fontName) then c.fontName else DefaultConfig().fontName
    ensures r.indicator == if ValidIndicatorName(c.indicator) then c.indicator else DefaultConfig().indicator
    ensures r.showText == if c.showText.Some? then c.showText else DefaultConfig().showText
    ensures multiset{r.thresholds.warning, r.thresholds.critical}
         == multiset{ThresholdOr(c.thresholds.warning, DefaultWarning), ThresholdOr(c.thresholds.critical, DefaultCritical)}
  {
    var d := DefaultConfig();
    var warning := ThresholdOr(c.thresholds.warning, DefaultWarning);
    var critical := ThresholdOr(c.thresholds.critical, DefaultCritical);
    Config(
      c.claudeHome,
      if c.pollIntervalSeconds <= 0 then d.pollIntervalSeconds else c.pollIntervalSeconds,
      if c.fontSize <= 0.0 then d.fontSize else c.fontSize,
      if c.fontName == "" || !ValidFontName(c.fontName) then d.fontName else c.fontName,
      if c.haloSize < 0.0 then d.haloSize else c.haloSize,
      if c.iconSize <= 0 then d.iconSize else c.iconSize,
      if c.indicator == "" || !ValidIndicatorName(c.indicator) then d.indicator else c.indicator,
      if c.showText.None? then d.showText else c.showText,
      OrderThresholds(Thresholds(warning, critical)))
  }

  /** A configuration that is already valid passes validation unchanged, so
      validating twice is the same as validating once. */
  lemma {:induction false} SanitizeKeepsValid(c: Config)
    requires Valid(c)
    ensures Sanitize(c) == c
  {
    var t := c.thresholds;
    assert ThresholdOr(t.warning, DefaultWarning) == t.warning;
    assert ThresholdOr(t.critical, DefaultCritical) == t.critical;
    assert OrderThresholds(t) == t;
  }

  lemma SanitizeIdempotent(c: Config)
    ensures Sanitize(Sanitize(c)) == Sanitize(c)
  {
    SanitizeKeepsValid(Sanitize(c));
  }

  /** The thresholds object as decoded; a missing key is None. */
  datatype ThresholdsDoc = ThresholdsDoc(warning: Option<real>, critical: Option<real>)

  /** The configuration file as decoded; a missing key is None. `showText`
      distinguishes a missing key (None) from an explicit null (Some(None)). */
  datatype ConfigDoc = ConfigDoc(
    claudeHome: Option<string>,
    pollIntervalSeconds: Option<int>,
    fontSize: Option<real>,
    fontName: Option<string>,
    haloSize: Option<real>,
    iconSize: Option<int>,
    indicator: Option<string>,
    showText: Option<Option<bool>>,
    thresholds: Option<ThresholdsDoc>)

  /** Decoding into a pre-filled configuration: keys present in the document
      overwrite, missing keys keep the base value. Inside a present
      thresholds object each missing key keeps its base value too. */
  function Overlay(base: Config, doc: ConfigDoc): (r: Config)
    ensures r.claudeHome == doc.claudeHome.GetOr(base.claudeHome)
    ensures r.pollIntervalSeconds == doc.pollIntervalSeconds.GetOr(base.pollIntervalSeconds)
    ensures r.fontSize == doc.fontSize.GetOr(base.fontSize)
    ensures r.fontName == doc.fontName.GetOr(base.fontName)
    ensures r.haloSize == doc.haloSize.GetOr(base.haloSize)
    ensures r.iconSize == doc.iconSize.GetOr(base.iconSize)
    ensures r.indicator == doc.indicator.GetOr(base.indicator)
    ensures r.showText == doc.showText.GetOr(base.showText)
    ensures doc.thresholds.None? ==> r.thresholds == base.thresholds
    ensures doc.thresholds.Some? ==>
      && r.thresholds.warning == doc.thresholds.value.warning.GetOr(base.thresholds.warning)
      && r.thresholds.critical == doc.thresholds.value.critical.GetOr(base.thresholds.critical)
  {
    var t := match doc.thresholds
      case None => base.thresholds
      case Some(td) => Thresholds(td.warning.GetOr(base.thresholds.warning), td.critical.GetOr(base.thresholds.critical));
    Config(
      doc.claudeHome.GetOr(base.claudeHome),
      doc.pollIntervalSeconds.GetOr(base.pollIntervalSeconds),
      doc.fontSize.GetOr(base.fontSize),
      doc.fontName.GetOr(base.fontName),
      doc.haloSize.GetOr(base.haloSize),
      doc.iconSize.GetOr(base.iconSize),
      doc.indicator.GetOr(base.indicator),
      doc.showText.GetOr(base.showText),
      t)
  }

  /** The document with no keys at all. */
  const EmptyDoc: ConfigDoc := ConfigDoc(None, None, None, None, None, None, None, None, None)

  /** An empty document decodes to the base configuration unchanged. */
  lemma OverlayEmptyDoc(base: Config)
    ensures Overlay(base, EmptyDoc) == base
  {
  }

  /** Decoding the same document a second time changes nothing more. */
  lemma {:induction false} OverlayIdempotent(base: Config, doc: ConfigDoc)
    ensures Overlay(Overlay(base, doc), doc) == Overlay(base, doc)
  {
    var once := Overlay(base, doc);
    var twice := Overlay(once, doc);
    assert twice.thresholds == once.thresholds;
  }

  /** What reading the configuration file produced. */
  datatype ConfigRead = Missing | Unreadable | Unparseable | Parsed(doc: ConfigDoc)

  /** The configuration in effect at start-up: the defaults when the file is
      missing, unreadable or malformed, else the decoded file laid over the
      defaults and validated. */
  function LoadConfig(read: ConfigRead): (r: Config)
    ensures !read.Parsed? ==> r == DefaultConfig()
    ensures read.Parsed? ==> r == Sanitize(Overlay(DefaultConfig(), read.doc))
    ensures Valid(r)
  {
    match read
    case Parsed(doc) => Sanitize(Overlay(DefaultConfig(), doc))
    case _ => DefaultConfig()
  }

  /** A partial file keeps the default of every setting it leaves out, and a
      valid setting it gives is kept. An out-of-range or unknown value falls
      back to the default (`Sanitize`). */
  lemma PartialFileKeepsDefaults(doc: ConfigDoc)
    ensures var r := LoadConfig(Parsed(doc));
      && (doc.pollIntervalSeconds.None? ==> r.pollIntervalSeconds == DefaultConfig().pollIntervalSeconds)
      && (doc.fontSize.None? ==> r.fontSize == DefaultConfig().fontSize)
      && (doc.fontName.None? ==> r.fontName == DefaultConfig().fontName)
      && (doc.haloSize.None? ==> r.haloSize == DefaultConfig().haloSize)
      && (doc.iconSize.None? ==> r.iconSize == DefaultConfig().iconSize)
      && (doc.indicator.None? ==> r.indicator == DefaultConfig().indicator)
      && (doc.showText.None? ==> r.showText == DefaultConfig().showText)
      && (doc.thresholds.None? ==> r.thresholds == DefaultConfig().thresholds)
      && (doc.pollIntervalSeconds.Some? && doc.pollIntervalSeconds.value > 0 ==> r.pollIntervalSeconds == doc.pollIntervalSeconds.value)
      && (doc.fontName.Some? && ValidFontName(doc.fontName.value) ==> r.fontName == doc.fontName.value)
      && (doc.claudeHome.Some? ==> r.claudeHome == doc.claudeHome.value)
      && (doc.fontSize.Some? && doc.fontSize.value > 0.0 ==> r.fontSize == doc.fontSize.value)
      && (doc.haloSize.Some? && doc.haloSize.value >= 0.0 ==> r.haloSize == doc.haloSize.value)
      && (doc.iconSize.Some? && doc.iconSize.value > 0 ==> r.iconSize == doc.iconSize.value)
      && (doc.indicator.Some? && ValidIndicatorName(doc.indicator.value) ==> r.indicator == doc.indicator.value)
      && (doc.showText.Some? && doc.showText.value.Some? ==> r.showText == doc.showText.value)
      && (doc.thresholds.Some? && doc.thresholds.value.warning.Some? && doc.thresholds.value.critical.Some? &&
          0.0 < doc.thresholds.value.warning.value < doc.thresholds.value.critical.value <= 100.0 ==>
          r.thresholds == Thresholds(doc.thresholds.value.warning.value, doc.thresholds.value.critical.value))
  {
  }
}
