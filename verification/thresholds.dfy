/** Warning and critical utilisation levels, in percent. */
module Thresholds {

  datatype Thresholds = Thresholds(warning: real, critical: real)

  /** Both levels lie in (0, 100] and warning does not exceed critical. */
  predicate Ordered(t: Thresholds) {
    0.0 < t.warning <= t.critical <= 100.0
  }

  /** Puts the pair in order by swapping when warning is not below critical;
      an equal pair is left as it is. */
  function OrderThresholds(t: Thresholds): (r: Thresholds)
    ensures r.warning <= r.critical
    ensures multiset{r.warning, r.critical} == multiset{t.warning, t.critical}
    ensures t.warning < t.critical ==> r == t
  {
    if t.warning >= t.critical then Thresholds(t.critical, t.warning) else t
  }
}
