/** The tray tooltip: a title line, then either the error or the quota lines
    of each known bucket, then the time of the last update. */
module Tray {
  import opened Wrappers
  import opened Projection
  import opened Quota
  import opened Format

  datatype Bucket = FiveHourBucket | SevenDayBucket | SonnetBucket

  function Label(b: Bucket): string {
    match b
    case FiveHourBucket => "5h"
    case SevenDayBucket => "7d"
    case SonnetBucket => "Sonnet 7d"
  }

  function Utilization(s: QuotaState, b: Bucket): Option<real> {
    match b
    case FiveHourBucket => s.fiveHour
    case SevenDayBucket => s.sevenDay
    case SonnetBucket => s.sevenDaySonnet
  }

  function Resets(s: QuotaState, b: Bucket): Option<Time> {
    match b
    case FiveHourBucket => s.fiveHourResets
    case SevenDayBucket => s.sevenDayResets
    case SonnetBucket => s.sevenDaySonnetResets
  }

  /** The projection the tooltip shows for a bucket; the Sonnet bucket has none. */
  function Projected(s: QuotaState, b: Bucket): Option<real> {
    match b
    case FiveHourBucket => s.fiveHourProjected
    case SevenDayBucket => s.sevenDayProjected
    case SonnetBucket => None
  }

  /** The saturation time the tooltip shows for a bucket; the Sonnet bucket has none. */
  function Saturation(s: QuotaState, b: Bucket): Option<Time> {
    match b
    case FiveHourBucket => s.fiveHourSaturation
    case SevenDayBucket => s.sevenDaySaturation
    case SonnetBucket => None
  }

  const Title: string := "Claude Quota"

  /** The lines of a bucket, each preceded by a line break: the quota line,
      then its projection and saturation lines when known; nothing at all
      when the bucket's utilisation is unknown. */
  function BucketSection(s: QuotaState, b: Bucket, now: Time, loc: Locale): string {
    if Utilization(s, b).None? then ""
    else
      "\n" + RenderLine(s, QuotaLine(b), now, loc)
      + (if Projected(s, b).Some? then "\n" + RenderLine(s, ProjectionLine(b), now, loc) else "")
      + (if Saturation(s, b).Some? then "\n" + RenderLine(s, SaturationLine(b), now, loc) else "")
  }

  /** The error line, or else the sections of the three buckets. */
  function Body(s: QuotaState, now: Time, loc: Locale): string {
    if s.error != "" then "\nError: " + s.error
    else BucketSection(s, FiveHourBucket, now, loc) + BucketSection(s, SevenDayBucket, now, loc)
         + BucketSection(s, SonnetBucket, now, loc)
  }

  /** The update line, when the snapshot has an update time. */
  function UpdatedSuffix(s: QuotaState, loc: Locale): string {
    if s.lastUpdate.Some? then "\nUpdated: " + loc.clock(s.lastUpdate.value) else ""
  }

  /** The tooltip text for a snapshot. */
  function BuildTooltip(s: QuotaState, now: Time, loc: Locale): (text: string)
    ensures Title <= text
  {
    var rest := Body(s, now, loc) + UpdatedSuffix(s, loc);
    assert Title + Body(s, now, loc) + UpdatedSuffix(s, loc) == Title + rest;
    assert (Title + rest)[..|Title|] == Title;
    Title + Body(s, now, loc) + UpdatedSuffix(s, loc)
  }

  /** With an error, the tooltip shows the error instead of any quota line. */
  lemma ErrorTooltip(s: QuotaState, now: Time, loc: Locale)
    requires s.error != ""
    ensures BuildTooltip(s, now, loc) == Title + "\nError: " + s.error + UpdatedSuffix(s, loc)
  {
  }

  /** The empty snapshot shows only the title. */
  lemma EmptyTooltip(now: Time, loc: Locale)
    ensures BuildTooltip(EmptyState, now, loc) == Title
  {
  }

  /** The kinds of tooltip line. */
  datatype Line = TitleLine | ErrorLine | QuotaLine(b: Bucket) | ProjectionLine(b: Bucket) | SaturationLine(b: Bucket) | UpdatedLine

  /** When each kind of line is shown: the title always; the error line for an
      error; a bucket's lines only without an error and only for a bucket with
      a utilisation, its projection and saturation lines only when those are
      known; the update line whenever the snapshot has an update time. */
  predicate Shown(s: QuotaState, l: Line) {
    match l
    case TitleLine => true
    case ErrorLine => s.error != ""
    case QuotaLine(b) => s.error == "" && Utilization(s, b).Some?
    case ProjectionLine(b) => s.error == "" && Utilization(s, b).Some? && Projected(s, b).Some?
    case SaturationLine(b) => s.error == "" && Utilization(s, b).Some? && Saturation(s, b).Some?
    case UpdatedLine => s.lastUpdate.Some?
  }

  function BucketIndex(b: Bucket): nat {
    match b
    case FiveHourBucket => 0
    case SevenDayBucket => 1
    case SonnetBucket => 2
  }

  /** Position of a line kind in the tooltip: title, error, the buckets in
      the order 5h, 7d, Sonnet 7d (each quota, projection, saturation), and
      the update line last. */
  function Rank(l: Line): nat {
    match l
    case TitleLine => 0
    case ErrorLine => 1
    case QuotaLine(b) => 2 + 3 * BucketIndex(b)
    case ProjectionLine(b) => 3 + 3 * BucketIndex(b)
    case SaturationLine(b) => 4 + 3 * BucketIndex(b)
    case UpdatedLine => 11
  }

  function BucketPlan(s: QuotaState, b: Bucket): seq<Line> {
    if Utilization(s, b).None? then []
    else
      [QuotaLine(b)]
      + (if Projected(s, b).Some? then [ProjectionLine(b)] else [])
      + (if Saturation(s, b).Some? then [SaturationLine(b)] else [])
  }

  /** The line kinds the tooltip is made of, in order. */
  function Plan(s: QuotaState): seq<Line> {
    [TitleLine]
    + (if s.error != "" then [ErrorLine]
       else BucketPlan(s, FiveHourBucket) + BucketPlan(s, SevenDayBucket) + BucketPlan(s, SonnetBucket))
    + (if s.lastUpdate.Some? then [UpdatedLine] else [])
  }

  predicate StrictlyRanked(ls: seq<Line>) {
    forall i, j :: 0 <= i < j < |ls| ==> Rank(ls[i]) < Rank(ls[j])
  }

  lemma BucketPlanFacts(s: QuotaState, b: Bucket)
    ensures StrictlyRanked(BucketPlan(s, b))
    ensures forall l :: l in BucketPlan(s, b) ==> 2 + 3 * BucketIndex(b) <= Rank(l) <= 4 + 3 * BucketIndex(b)
    ensures forall l :: l in BucketPlan(s, b) <==>
      (l == QuotaLine(b) || l == ProjectionLine(b) || l == SaturationLine(b)) && Shown(s.(error := ""), l)
  {
  }

  lemma RankedConcat(a: seq<Line>, b: seq<Line>)
    requires StrictlyRanked(a) && StrictlyRanked(b)
    requires forall x, y :: x in a && y in b ==> Rank(x) < Rank(y)
    ensures StrictlyRanked(a + b)
  {
    forall i, j | 0 <= i < j < |a + b|
      ensures Rank((a + b)[i]) < Rank((a + b)[j])
    {
      if j < |a| {
      } else if i >= |a| {
        assert (a + b)[i] == b[i - |a|] && (a + b)[j] == b[j - |a|];
      } else {
        assert (a + b)[i] in a && (a + b)[j] in b;
      }
    }
  }

  /** The planned lines between the title and the updated line. */
  function Middle(s: QuotaState): seq<Line> {
    if s.error != "" then [ErrorLine]
    else BucketPlan(s, FiveHourBucket) + BucketPlan(s, SevenDayBucket) + BucketPlan(s, SonnetBucket)
  }

  function Tail(s: QuotaState): seq<Line> {
    if s.lastUpdate.Some? then [UpdatedLine] else []
  }

  lemma PlanParts(s: QuotaState)
    ensures Plan(s) == [TitleLine] + Middle(s) + Tail(s)
  {
  }

  lemma {:induction false} MiddleRanked(s: QuotaState)
    ensures StrictlyRanked(Middle(s))
    ensures forall l :: l in Middle(s) ==> 1 <= Rank(l) <= 10
  {
    if s.error == "" {
      var p5 := BucketPlan(s, FiveHourBucket);
      var p7 := BucketPlan(s, SevenDayBucket);
      var pn := BucketPlan(s, SonnetBucket);
      BucketPlanFacts(s, FiveHourBucket);
      BucketPlanFacts(s, SevenDayBucket);
      BucketPlanFacts(s, SonnetBucket);
      RankedConcat(p5, p7);
      RankedConcat(p5 + p7, pn);
    }
  }

  lemma {:induction false} MiddleShown(s: QuotaState, l: Line)
    ensures l in Middle(s) <==> Shown(s, l) && l != TitleLine && l != UpdatedLine
  {
    if s.error == "" {
      var p5 := BucketPlan(s, FiveHourBucket);
      var p7 := BucketPlan(s, SevenDayBucket);
      var pn := BucketPlan(s, SonnetBucket);
      BucketPlanFacts(s, FiveHourBucket);
      BucketPlanFacts(s, SevenDayBucket);
      BucketPlanFacts(s, SonnetBucket);
      assert l in Middle(s) <==> l in p5 || l in p7 || l in pn;
    }
  }

  /** The tooltip's lines are exactly the shown ones, each once, in rank
      order; a sequence with both properties is unique, so this pins the
      tooltip's layout down completely. */
  lemma {:induction false} PlanIsShownLinesInOrder(s: QuotaState)
    ensures forall l :: l in Plan(s) <==> Shown(s, l)
    ensures StrictlyRanked(Plan(s))
  {
    PlanParts(s);
    MiddleRanked(s);
    RankedConcat([TitleLine], Middle(s));
    RankedConcat([TitleLine] + Middle(s), Tail(s));
    forall l
      ensures l in Plan(s) <==> Shown(s, l)
    {
      MiddleShown(s, l);
      assert l in Plan(s) <==> l == TitleLine || l in Middle(s) || l in Tail(s);
    }
  }

  /** The text of one line kind. */
  function RenderLine(s: QuotaState, l: Line, now: Time, loc: Locale): string {
    match l
    case TitleLine => Title
    case ErrorLine => "Error: " + s.error
    case QuotaLine(b) => FormatQuotaLine(Label(b), Utilization(s, b), Resets(s, b), now, loc)
    case ProjectionLine(b) => FormatProjectionLine(Projected(s, b), loc)
    case SaturationLine(b) => FormatSaturationLine(Saturation(s, b), now, loc)
    case UpdatedLine => if s.lastUpdate.Some? then "Updated: " + loc.clock(s.lastUpdate.value) else ""
  }

  /** Each line rendered and preceded by a line break. */
  function Breaks(s: QuotaState, ls: seq<Line>, now: Time, loc: Locale): string {
    if |ls| == 0 then "" else "\n" + RenderLine(s, ls[0], now, loc) + Breaks(s, ls[1..], now, loc)
  }

  lemma BreaksSingle(s: QuotaState, l: Line, now: Time, loc: Locale)
    ensures Breaks(s, [l], now, loc) == "\n" + RenderLine(s, l, now, loc)
  {
    assert [l][1..] == [];
  }

  lemma {:induction false} BreaksConcat(s: QuotaState, a: seq<Line>, b: seq<Line>, now: Time, loc: Locale)
    ensures Breaks(s, a + b, now, loc) == Breaks(s, a, now, loc) + Breaks(s, b, now, loc)
    decreases |a|
  {
    if |a| > 0 {
      assert (a + b)[1..] == a[1..] + b;
      BreaksConcat(s, a[1..], b, now, loc);
    } else {
      assert a + b == b;
    }
  }

  lemma BucketSectionIsBreaks(s: QuotaState, b: Bucket, now: Time, loc: Locale)
    ensures BucketSection(s, b, now, loc) == Breaks(s, BucketPlan(s, b), now, loc)
  {
    if Utilization(s, b).Some? {
      var q := [QuotaLine(b)];
      var pr := if Projected(s, b).Some? then [ProjectionLine(b)] else [];
      var sa := if Saturation(s, b).Some? then [SaturationLine(b)] else [];
      BreaksConcat(s, q, pr, now, loc);
      BreaksConcat(s, q + pr, sa, now, loc);
      BreaksSingle(s, QuotaLine(b), now, loc);
      BreaksSingle(s, ProjectionLine(b), now, loc);
      BreaksSingle(s, SaturationLine(b), now, loc);
    }
  }

  lemma {:induction false} MiddleBreaks(s: QuotaState, now: Time, loc: Locale)
    ensures Breaks(s, Middle(s), now, loc) == Body(s, now, loc)
  {
    if s.error == "" {
      var p5 := BucketPlan(s, FiveHourBucket);
      var p7 := BucketPlan(s, SevenDayBucket);
      var pn := BucketPlan(s, SonnetBucket);
      BreaksConcat(s, p5 + p7, pn, now, loc);
      BreaksConcat(s, p5, p7, now, loc);
      BucketSectionIsBreaks(s, FiveHourBucket, now, loc);
      BucketSectionIsBreaks(s, SevenDayBucket, now, loc);
      BucketSectionIsBreaks(s, SonnetBucket, now, loc);
    } else {
      BreaksSingle(s, ErrorLine, now, loc);
    }
  }

  lemma TailBreaks(s: QuotaState, now: Time, loc: Locale)
    ensures Breaks(s, Tail(s), now, loc) == UpdatedSuffix(s, loc)
  {
    if s.lastUpdate.Some? {
      BreaksSingle(s, UpdatedLine, now, loc);
    }
  }

  /** The tooltip is the title followed by the rendered lines of the plan,
      one per line. */
  lemma {:induction false} TooltipFollowsPlan(s: QuotaState, now: Time, loc: Locale)
    ensures BuildTooltip(s, now, loc) == Title + Breaks(s, Plan(s)[1..], now, loc)
  {
    PlanParts(s);
    assert Plan(s)[1..] == Middle(s) + Tail(s);
    BreaksConcat(s, Middle(s), Tail(s), now, loc);
    MiddleBreaks(s, now, loc);
    TailBreaks(s, now, loc);
    assert Title + Body(s, now, loc) + UpdatedSuffix(s, loc) == Title + (Body(s, now, loc) + UpdatedSuffix(s, loc));
  }
}
