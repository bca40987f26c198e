/** The decision logic of the tray icon: which fonts and indicators exist,
    which colour a utilisation gets, and which of the three icons is drawn.
    The drawing itself is not modelled. */
module Icon {
  import opened Wrappers
  import opened Thresholds
  import opened Quota

  /** The TrueType faces bundled with the program. */
  datatype FontFace = GoBold | GoRegular | GoMono | GoMonoBold

  const BuiltinFonts: map<string, FontFace> :=
    map["bold" := GoBold, "regular" := GoRegular, "mono" := GoMono, "monobold" := GoMonoBold]

  /** The bitmap font is not a TrueType face but is also accepted. */
  const BitmapFont: string := "bitmap"

  /** A font name is valid when it is the bitmap font or a bundled face. */
  function ValidFontName(name: string): (ok: bool)
    ensures ok <==> name in {"bold", "regular", "mono", "monobold", "bitmap"}
  {
    name == BitmapFont || name in BuiltinFonts
  }

  /** The indicator styles the renderer knows. */
  function ValidIndicatorName(name: string): (ok: bool)
    ensures ok ==> name != ""
    ensures ok <==> name == "pie" || name == "bar" || name == "arc" || name == "bar-proj"
  {
    name in {"pie", "bar", "arc", "bar-proj"}
  }

  datatype Color = RGBA(r: nat, g: nat, b: nat, a: nat)

  const Gray := RGBA(128, 128, 128, 255)
  const Red := RGBA(220, 53, 69, 255)
  const Yellow := RGBA(255, 193, 7, 255)
  const Green := RGBA(40, 167, 69, 255)

  /** The colour for a utilisation: gray when unknown, red from the critical
      level up (checked first), yellow from the warning level up, green below. */
  function ColorForUtilization(utilization: Option<real>, t: Thresholds): (c: Color)
    ensures c == Gray <==> utilization.None?
    ensures c == Red <==> utilization.Some? && utilization.value >= t.critical
    ensures c == Yellow <==> utilization.Some? && t.warning <= utilization.value < t.critical
    ensures c == Green <==> utilization.Some? && utilization.value < t.warning && utilization.value < t.critical
  {
    match utilization
    case None => Gray
    case Some(v) =>
      if v >= t.critical then Red
      else if v >= t.warning then Yellow
      else Green
  }

  /** How alarming a colour is: green, yellow, red in increasing order. */
  function Severity(c: Color): nat {
    if c == Red then 2 else if c == Yellow then 1 else 0
  }

  /** With ordered levels, more usage never gives a calmer colour. */
  lemma {:induction false} ColorMonotone(u1: real, u2: real, t: Thresholds)
    requires t.warning <= t.critical
    requires u1 <= u2
    ensures Severity(ColorForUtilization(Some(u1), t)) <= Severity(ColorForUtilization(Some(u2), t))
  {
    var c1 := ColorForUtilization(Some(u1), t);
    var c2 := ColorForUtilization(Some(u2), t);
    if c1 == Red {
      assert u2 >= t.critical;
    } else if c1 == Yellow {
      assert u2 >= t.warning;
      assert c2 != Green;
    }
  }

  /** Which icon is drawn, and for the normal icon what drives it. */
  datatype IconKind = ExpiredIcon | ErrorIcon | NormalIcon(utilization: Option<real>, color: Color)

  /** The icon branch: an expired token wins over an error, which wins over
      the normal gauge of the five-hour utilisation. */
  function RenderIcon(state: QuotaState, t: Thresholds): (k: IconKind)
    ensures k.ExpiredIcon? <==> state.tokenExpired
    ensures k.ErrorIcon? <==> !state.tokenExpired && state.error != ""
    ensures k.NormalIcon? ==> k.utilization == state.fiveHour && k.color == ColorForUtilization(state.fiveHour, t)
  {
    if state.tokenExpired then ExpiredIcon
    else if state.error != "" then ErrorIcon
    else NormalIcon(state.fiveHour, ColorForUtilization(state.fiveHour, t))
  }

  /** Only the expiry flag, the error and the five-hour utilisation decide
      the icon; the other buckets and the projections never do. */
  lemma RenderIconDependsOnFiveHourOnly(s1: QuotaState, s2: QuotaState, t: Thresholds)
    requires s1.tokenExpired == s2.tokenExpired && s1.error == s2.error && s1.fiveHour == s2.fiveHour
    ensures RenderIcon(s1, t) == RenderIcon(s2, t)
  {
  }
}
