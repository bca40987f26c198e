/** Text formatting of times and quota lines for the menu and tooltip. The
    wall clock is the explicit `now`; the locale-dependent pieces (Go's
    `%.0f` of a percentage and local-zone date/clock layouts) are supplied by
    a `Locale`. */
module Format {
  import opened Wrappers
  import opened Decimal
  import opened Projection

  /** Locale-dependent renderings: a percentage as `%.0f`, a time as the
      local "Mon 15:04" date and as the local "15:04:05" clock. */
  datatype Locale = Locale(percent: real -> string, date: Time -> string, clock: Time -> string)

  /** Go's layouts never render a time as the empty string. */
  ghost predicate DatesNonEmpty(loc: Locale) {
    forall t :: loc.date(t) != ""
  }

  /** Whole seconds in a non-negative duration (Go's `int(d.Seconds())`). */
  function WholeSeconds(d: Duration): (s: nat)
    requires d >= 0
    ensures s * Second <= d < (s + 1) * Second
  {
    d / Second
  }

  /** "Xh Ym" with hours, or "Ym" without. */
  function HoursMinutesText(hours: nat, minutes: nat): string {
    if hours > 0 then NatToString(hours) + "h " + NatToString(minutes) + "m"
    else NatToString(minutes) + "m"
  }

  /** Whole hours and leftover whole minutes in `total` seconds. */
  function HoursMinutesOf(total: nat): (hm: (nat, nat))
    ensures hm.1 < 60
    ensures hm.0 * 3600 + hm.1 * 60 <= total < hm.0 * 3600 + hm.1 * 60 + 60
  {
    (total / 3600, (total % 3600) / 60)
  }

  /** Time left until `resetTime`: "unknown" without one, "now" once it has
      passed, else whole hours and minutes with the seconds dropped. */
  function FormatTimeRemaining(resetTime: Option<Time>, now: Time): (r: string)
    ensures resetTime.None? ==> r == "unknown"
    ensures resetTime.Some? && resetTime.value < now ==> r == "now"
    ensures resetTime.Some? && resetTime.value >= now ==>
      var (h, m) := HoursMinutesOf(WholeSeconds(resetTime.value - now));
      r == HoursMinutesText(h, m)
  {
    match resetTime
    case None => "unknown"
    case Some(t) =>
      var delta := t - now;
      if delta < 0 then "now"
      else
        var totalSec := WholeSeconds(delta);
        var hours := totalSec / 3600;
        var minutes := (totalSec % 3600) / 60;
        HoursMinutesText(hours, minutes)
  }

  /** Reads "Xh Ym" or "Ym" back into hours and minutes. */
  function ReadHoursMinutes(s: string): Option<(nat, nat)> {
    match ReadNat(s)
    case None => None
    case Some((a, rest)) =>
      if rest == "m" then Some((0, a))
      else
        match Expect(rest, "h ")
        case None => None
        case Some(rest2) =>
          match ReadNat(rest2)
          case None => None
          case Some((b, rest3)) => if rest3 == "m" then Some((a, b)) else None
  }

  lemma HoursMinutesRoundTrip(h: nat, m: nat)
    ensures ReadHoursMinutes(HoursMinutesText(h, m)) == Some((h, m))
  {
    if h > 0 {
      var tail := NatToString(m) + "m";
      var rest := "h " + tail;
      assert HoursMinutesText(h, m) == NatToString(h) + rest;
      assert ReadNat(NatToString(h) + rest) == Some((h, rest)) by {
        ReadNatOfRendered(h, rest);
      }
      assert rest != "m" by {
        assert rest[0] != "m"[0];
      }
      assert Expect(rest, "h ") == Some(tail) by {
        ExpectOfConcat("h ", tail);
      }
      assert ReadNat(tail) == Some((m, "m")) by {
        ReadNatOfRendered(m, "m");
      }
    } else {
      ReadNatOfRendered(m, "m");
    }
  }

  /** The remaining-time text, read back, gives the hours and minutes of the
      delta: minutes below 60 and only the leftover seconds lost. */
  lemma {:induction false} TimeRemainingReadBack(resetTime: Time, now: Time)
    requires resetTime >= now
    ensures
      var total := WholeSeconds(resetTime - now);
      var back := ReadHoursMinutes(FormatTimeRemaining(Some(resetTime), now));
      && back.Some?
      && back.value.1 < 60
      && back.value.0 * 3600 + back.value.1 * 60 <= total < back.value.0 * 3600 + back.value.1 * 60 + 60
  {
    var total := WholeSeconds(resetTime - now);
    var hm := HoursMinutesOf(total);
    var text := FormatTimeRemaining(Some(resetTime), now);
    assert text == HoursMinutesText(hm.0, hm.1);
    assert ReadHoursMinutes(text) == Some(hm) by {
      HoursMinutesRoundTrip(hm.0, hm.1);
    }
  }

  /** Local reset date, "" without one. */
  function FormatResetDate(resetTime: Option<Time>, loc: Locale): (r: string)
    ensures resetTime.None? ==> r == ""
    ensures DatesNonEmpty(loc) ==> (r == "" <==> resetTime.None?)
  {
    match resetTime
    case None => ""
    case Some(t) => loc.date(t)
  }

  /** How long ago `t` was, in one of three granularities. */
  datatype Ago = Seconds(s: nat) | MinutesSeconds(m: nat, s: nat) | HoursMinutes(h: nat, m: nat)

  const UpdatedPrefix: string := "Updated: "

  function AgoText(a: Ago): string {
    match a
    case Seconds(s) => UpdatedPrefix + NatToString(s) + "s ago"
    case MinutesSeconds(m, s) => UpdatedPrefix + NatToString(m) + "m " + NatToString(s) + "s ago"
    case HoursMinutes(h, m) => UpdatedPrefix + NatToString(h) + "h " + NatToString(m) + "m ago"
  }

  /** The granularity and fields for an age of `total` seconds. */
  function AgoOf(total: nat): (a: Ago)
    ensures total < 60 ==> a == Seconds(total)
    ensures 60 <= total < 3600 ==> a.MinutesSeconds? && a.m * 60 + a.s == total && a.s < 60
    ensures total >= 3600 ==> a.HoursMinutes? && a.m < 60 && a.h * 3600 + a.m * 60 <= total < a.h * 3600 + a.m * 60 + 60
  {
    if total < 60 then Seconds(total)
    else
      var minutes := total / 60;
      var seconds := total % 60;
      if minutes < 60 then MinutesSeconds(minutes, seconds)
      else HoursMinutes(minutes / 60, minutes % 60)
  }

  /** "Updated: --" without a time; otherwise the age (clamped at zero) as
      "Ns ago" under a minute, "Xm Ys ago" under an hour, else "Xh Ym ago". */
  function FormatUpdatedAgo(t: Option<Time>, now: Time): (r: string)
    ensures t.None? ==> r == "Updated: --"
    ensures t.Some? && t.value > now ==> r == AgoText(Seconds(0))
    ensures t.Some? ==> UpdatedPrefix <= r
  {
    match t
    case None => "Updated: --"
    case Some(u) =>
      var ago := if now - u < 0 then 0 else now - u;
      AgoText(AgoOf(WholeSeconds(ago)))
  }

  /** Reads an "Updated: … ago" text back into its granularity and fields. */
  function ReadAgo(s: string): Option<Ago> {
    match Expect(s, UpdatedPrefix)
    case None => None
    case Some(body) =>
      match ReadNat(body)
      case None => None
      case Some((a, rest)) =>
        if rest == "s ago" then Some(Seconds(a))
        else
          match Expect(rest, "m ")
          case Some(rest2) => ReadSecondField(a, rest2)
          case None =>
            match Expect(rest, "h ")
            case Some(rest2) => ReadMinuteField(a, rest2)
            case None => None
  }

  function ReadSecondField(m: nat, s: string): Option<Ago> {
    match ReadNat(s)
    case Some((b, rest)) => if rest == "s ago" then Some(MinutesSeconds(m, b)) else None
    case None => None
  }

  function ReadMinuteField(h: nat, s: string): Option<Ago> {
    match ReadNat(s)
    case Some((b, rest)) => if rest == "m ago" then Some(HoursMinutes(h, b)) else None
    case None => None
  }

  lemma ReadAgoSeconds(s: nat)
    ensures ReadAgo(AgoText(Seconds(s))) == Some(Seconds(s))
  {
    var rest := "s ago";
    var body := NatToString(s) + rest;
    assert AgoText(Seconds(s)) == UpdatedPrefix + body;
    assert Expect(UpdatedPrefix + body, UpdatedPrefix) == Some(body) by {
      ExpectOfConcat(UpdatedPrefix, body);
    }
    assert ReadNat(body) == Some((s, rest)) by {
      ReadNatOfRendered(s, rest);
    }
  }

  lemma ReadAgoMinutesSeconds(m: nat, s: nat)
    ensures ReadAgo(AgoText(MinutesSeconds(m, s))) == Some(MinutesSeconds(m, s))
  {
    var tail := NatToString(s) + "s ago";
    var rest := "m " + tail;
    var body := NatToString(m) + rest;
    assert AgoText(MinutesSeconds(m, s)) == UpdatedPrefix + body;
    assert Expect(UpdatedPrefix + body, UpdatedPrefix) == Some(body) by {
      ExpectOfConcat(UpdatedPrefix, body);
    }
    assert ReadNat(body) == Some((m, rest)) by {
      ReadNatOfRendered(m, rest);
    }
    assert rest != "s ago" by {
      assert rest[0] != "s ago"[0];
    }
    assert Expect(rest, "m ") == Some(tail) by {
      ExpectOfConcat("m ", tail);
    }
    assert ReadSecondField(m, tail) == Some(MinutesSeconds(m, s)) by {
      ReadNatOfRendered(s, "s ago");
    }
  }

  lemma ReadAgoHoursMinutes(h: nat, m: nat)
    ensures ReadAgo(AgoText(HoursMinutes(h, m))) == Some(HoursMinutes(h, m))
  {
    var tail := NatToString(m) + "m ago";
    var rest := "h " + tail;
    var body := NatToString(h) + rest;
    assert AgoText(HoursMinutes(h, m)) == UpdatedPrefix + body;
    assert Expect(UpdatedPrefix + body, UpdatedPrefix) == Some(body) by {
      ExpectOfConcat(UpdatedPrefix, body);
    }
    assert ReadNat(body) == Some((h, rest)) by {
      ReadNatOfRendered(h, rest);
    }
    assert rest != "s ago" by {
      assert rest[0] != "s ago"[0];
    }
    assert Expect(rest, "m ").None? by {
      assert rest[0] != "m "[0];
    }
    assert Expect(rest, "h ") == Some(tail) by {
      ExpectOfConcat("h ", tail);
    }
    assert ReadMinuteField(h, tail) == Some(HoursMinutes(h, m)) by {
      ReadNatOfRendered(m, "m ago");
    }
  }

  lemma AgoRoundTrip(a: Ago)
    ensures ReadAgo(AgoText(a)) == Some(a)
  {
    match a
    case Seconds(s) => ReadAgoSeconds(s);
    case MinutesSeconds(m, s) => ReadAgoMinutesSeconds(m, s);
    case HoursMinutes(h, m) => ReadAgoHoursMinutes(h, m);
  }

  /** The "updated ago" text, read back, recovers the age: exact seconds under
      a minute, minutes and seconds summing to it under an hour, and hours and
      minutes (seconds dropped) beyond. A future stamp reads as zero. */
  lemma {:induction false} UpdatedAgoReadBack(t: Time, now: Time)
    ensures
      var total := if now - t < 0 then 0 else WholeSeconds(now - t);
      var back := ReadAgo(FormatUpdatedAgo(Some(t), now));
      && back.Some?
      && (total < 60 ==> back.value == Seconds(total))
      && (60 <= total < 3600 ==> back.value.MinutesSeconds? && back.value.m * 60 + back.value.s == total && back.value.s < 60)
      && (total >= 3600 ==>
            && back.value.HoursMinutes? && back.value.m < 60
            && back.value.h * 3600 + back.value.m * 60 <= total < back.value.h * 3600 + back.value.m * 60 + 60)
  {
    var ago := if now - t < 0 then 0 else now - t;
    var a := AgoOf(WholeSeconds(ago));
    var text := FormatUpdatedAgo(Some(t), now);
    assert text == AgoText(a);
    assert ReadAgo(text) == Some(a) by {
      AgoRoundTrip(a);
    }
  }

  /** "  - ~N% at reset", or "" without a projection. */
  function FormatProjectionLine(projected: Option<real>, loc: Locale): (r: string)
    ensures r == "" <==> projected.None?
  {
    match projected
    case None => ""
    case Some(p) => ProjectionPrefix + loc.percent(p) + ProjectionSuffix
  }

  /** "  - saturates in <remaining>, <date>", or "" without a saturation time. */
  function FormatSaturationLine(saturation: Option<Time>, now: Time, loc: Locale): (r: string)
    ensures r == "" <==> saturation.None?
  {
    match saturation
    case None => ""
    case Some(_) =>
      SaturationPrefix + FormatTimeRemaining(saturation, now) + ", " + FormatResetDate(saturation, loc)
  }

  const ProjectionPrefix: string := "  - ~"
  const ProjectionSuffix: string := "% at reset"

  /** Reads the percentage text back out of a projection line. */
  function ReadProjectionLine(line: string): Option<string> {
    match Expect(line, ProjectionPrefix)
    case None => None
    case Some(rest) =>
      var k := |rest| - |ProjectionSuffix|;
      if k >= 0 && rest[k..] == ProjectionSuffix then Some(rest[..k]) else None
  }

  /** A projection line carries exactly the locale's rendering of the
      projected percentage. */
  lemma {:induction false} ProjectionLineReadBack(projected: real, loc: Locale)
    ensures ReadProjectionLine(FormatProjectionLine(Some(projected), loc)) == Some(loc.percent(projected))
  {
    var pct := loc.percent(projected);
    var rest := pct + ProjectionSuffix;
    assert FormatProjectionLine(Some(projected), loc) == ProjectionPrefix + rest;
    ExpectOfConcat(ProjectionPrefix, rest);
    assert rest[|pct|..] == ProjectionSuffix;
    assert rest[..|pct|] == pct;
  }

  predicate CommaFree(s: string) {
    forall i :: 0 <= i < |s| ==> s[i] != ','
  }

  /** Index of the first comma in `s`, or its length when there is none. */
  function FirstComma(s: string): (k: nat)
    ensures k <= |s|
  {
    if |s| == 0 || s[0] == ',' then 0 else 1 + FirstComma(s[1..])
  }

  lemma {:induction false} FirstCommaAfterCommaFree(a: string, b: string)
    requires CommaFree(a) && |b| > 0 && b[0] == ','
    ensures FirstComma(a + b) == |a|
  {
    if |a| == 0 {
      assert a + b == b;
    } else {
      assert (a + b)[1..] == a[1..] + b;
      FirstCommaAfterCommaFree(a[1..], b);
    }
  }

  /** The remaining-time text never contains a comma. */
  lemma TimeRemainingCommaFree(resetTime: Option<Time>, now: Time)
    ensures CommaFree(FormatTimeRemaining(resetTime, now))
  {
    if resetTime.Some? && resetTime.value >= now {
      var (h, m) := HoursMinutesOf(WholeSeconds(resetTime.value - now));
      var hs, ms := NatToString(h), NatToString(m);
      assert AllDigits(hs) && AllDigits(ms);
    }
  }

  const SaturationPrefix: string := "  - saturates in "

  /** Splits a saturation line back into its remaining-time and date texts
      at the first ", ". */
  function ReadSaturationLine(line: string): Option<(string, string)> {
    match Expect(line, SaturationPrefix)
    case None => None
    case Some(rest) =>
      var k := FirstComma(rest);
      match Expect(rest[k..], ", ")
      case None => None
      case Some(date) => Some((rest[..k], date))
  }

  /** A saturation line carries the remaining time and the date of the
      saturation moment, and both can be recovered from it. */
  lemma {:induction false} SaturationLineReadBack(saturation: Time, now: Time, loc: Locale)
    ensures ReadSaturationLine(FormatSaturationLine(Some(saturation), now, loc)) ==
      Some((FormatTimeRemaining(Some(saturation), now), FormatResetDate(Some(saturation), loc)))
  {
    var remaining := FormatTimeRemaining(Some(saturation), now);
    var date := FormatResetDate(Some(saturation), loc);
    var rest := remaining + (", " + date);
    assert FormatSaturationLine(Some(saturation), now, loc) == SaturationPrefix + rest;
    ExpectOfConcat(SaturationPrefix, rest);
    TimeRemainingCommaFree(Some(saturation), now);
    FirstCommaAfterCommaFree(remaining, ", " + date);
    assert rest[..|remaining|] == remaining;
    assert rest[|remaining|..] == ", " + date;
    ExpectOfConcat(", ", date);
  }

  /** "<caption>: --" without a utilisation; otherwise the percentage, followed
      by a parenthesised remaining time and date only when a reset time is
      known. */
  function FormatQuotaLine(caption: string, utilization: Option<real>, resets: Option<Time>,
                           now: Time, loc: Locale): (r: string)
    ensures utilization.None? ==> r == caption + ": --"
    ensures utilization.Some? ==>
      var head := caption + ": " + loc.percent(utilization.value) + "%";
      && head <= r
      && (|r| == |head| <==> FormatResetDate(resets, loc) == "")
      && (|r| > |head| ==> r[|head|..] == " (resets in " + FormatTimeRemaining(resets, now) + ", " + FormatResetDate(resets, loc) + ")")
  {
    match utilization
    case None => caption + ": --"
    case Some(u) =>
      var remaining := FormatTimeRemaining(resets, now);
      var date := FormatResetDate(resets, loc);
      var head := caption + ": " + loc.percent(u) + "%";
      if date != "" then
        var r := head + " (resets in " + remaining + ", " + date + ")";
        assert r == head + (" (resets in " + remaining + ", " + date + ")");
        r
      else head
  }

  /** With a real locale, the reset part of a quota line is present exactly
      when the reset time is known. */
  lemma QuotaLineResetPart(caption: string, utilization: real, resets: Option<Time>, now: Time, loc: Locale)
    requires DatesNonEmpty(loc)
    ensures
      var head := caption + ": " + loc.percent(utilization) + "%";
      var r := FormatQuotaLine(caption, Some(utilization), resets, now, loc);
      (r == head <==> resets.None?)
  {
  }
}
