/** The two research tracks' decisions for one feature row
    (scripts/strategy_pipeline/dual_strategy_tracks.py). Numbers are reals; a
    field that is missing or does not parse is `None`. */
module TrackScores {
  import opened Common

  datatype Bin = Missing | Low | Medium | High | Unsafe

  function BinPositive(value: Option<real>, medium: real, high: real): Bin {
    match value
    case None => Missing
    case Some(v) => if v >= high then High else if v >= medium then Medium else if v > 0.0 then Low else Missing
  }

  function RiskBin(value: Option<real>, medium: real, high: real, unsafe: Option<real>): Bin {
    match value
    case None => Missing
    case Some(v) =>
      if unsafe.Some? && v >= unsafe.value then Unsafe
      else if v >= high then High else if v >= medium then Medium else Low
  }

  /** One as-of feature row with what the context resolves for it. */
  datatype Features = Features(
    horizon: int, horizonReached: bool, qualityBlocked: bool, terminalInconclusive: bool, degraded: bool,
    rejected: bool, holderCollapse: bool, liquidityExit: bool, promoted: bool, exitObserved: bool,
    curve: Option<real>, netBuys: Option<real>, volume: Option<real>,
    newHolders: Option<real>, uniqueHolders: Option<real>,
    sells: Option<real>, concentration: Option<real>, devHolding: Option<real>, liquidityDelta: Option<real>)

  datatype Prefilter = PassCensored | PassAuditOnly | PassReject | PassContinue

  datatype Decision = Censored | AuditOnly | Reject | InsufficientData | ContinueObservation | Review

  function DeadLaunchPrefilter(f: Features): Prefilter {
    if f.qualityBlocked then PassAuditOnly
    else if f.terminalInconclusive then PassCensored
    else if f.degraded then PassAuditOnly
    else if f.rejected || f.holderCollapse || f.liquidityExit then PassReject
    else PassContinue
  }

  /** Python's `x or 0` on a number field. */
  function OrZero(value: Option<real>): real {
    match value case Some(v) => v case None => 0.0
  }

  /** Python's `a or b` on number fields: a zero falls through. */
  function OrNext(a: Option<real>, b: Option<real>): Option<real> {
    if a.Some? && a.value != 0.0 then a else b
  }

  function Larger(a: real, b: real): real {
    if a >= b then a else b
  }

  function HolderDevRisk(f: Features): Option<real> {
    var risk := Larger(OrZero(f.concentration), OrZero(f.devHolding));
    if risk != 0.0 then Some(risk) else None
  }

  function Drawdown(f: Features): real {
    if f.liquidityDelta.Some? && f.liquidityDelta.value < 0.0 then -f.liquidityDelta.value else 0.0
  }

  function LiquidityBin(f: Features, high: real): Bin {
    if f.liquidityExit then Unsafe else RiskBin(Some(Drawdown(f)), 1.0, high, None)
  }

  // ----- the bins, which are written out next to the decisions -----

  /** With thresholds in order the bins are the ranges between them. */
  lemma {:induction false} BinsExactly(value: Option<real>, medium: real, high: real, unsafe: Option<real>)
    requires 0.0 < medium < high && (unsafe.Some? ==> high < unsafe.value)
    ensures var b := BinPositive(value, medium, high);
            && (b == High <==> AtLeast(value, high)) && (b == Medium <==> AtLeast(value, medium) && Below(value, high))
            && (b == Low <==> Above(value, 0.0) && Below(value, medium)) && (b == Missing <==> !Above(value, 0.0))
    ensures var b := RiskBin(value, medium, high, unsafe);
            && (b == Missing <==> value.None?)
            && (b == Unsafe <==> unsafe.Some? && AtLeast(value, unsafe.value))
            && (b == High <==> AtLeast(value, high) && (unsafe.Some? ==> Below(value, unsafe.value)))
            && (b == Medium <==> AtLeast(value, medium) && Below(value, high))
  {
  }

  /** No risk is known exactly when neither share is positive and one is zero or
      missing; otherwise the risk is the larger share. */
  lemma {:induction false} HolderDevRiskExactly(f: Features)
    ensures HolderDevRisk(f) == None <==>
              && !Above(f.concentration, 0.0) && !Above(f.devHolding, 0.0)
              && !(f.concentration.Some? && f.concentration.value < 0.0 && f.devHolding.Some? && f.devHolding.value < 0.0)
    ensures HolderDevRisk(f).Some? ==>
              && HolderDevRisk(f) in {f.concentration, f.devHolding}
              && NoLess(f.concentration, HolderDevRisk(f)) && NoLess(f.devHolding, HolderDevRisk(f))
  {
  }

  /** A loss of liquidity counts from one unit on; an exit is unsafe whatever the loss. */
  lemma {:induction false} LiquidityBinExactly(f: Features, high: real)
    requires high > 1.0
    ensures var b, loss := LiquidityBin(f, high), f.liquidityDelta;
            && (b == Unsafe <==> f.liquidityExit)
            && (b == High <==> !f.liquidityExit && loss.Some? && loss.value <= -high)
            && (b == Medium <==> !f.liquidityExit && loss.Some? && -high < loss.value <= -1.0)
            && (b == Low <==> !f.liquidityExit && (loss.None? || loss.value > -1.0))
  {
  }

  // ----- early burst -----

  function EarlyDecision(f: Features): Decision {
    var curve := BinPositive(f.curve, 20.0, 50.0);
    var netBuys := BinPositive(f.netBuys, 2.0, 5.0);
    var volume := BinPositive(f.volume, 1.0, 1000000000.0);
    var sells := RiskBin(f.sells, 2.0, 5.0, Some(8.0));
    var holders := RiskBin(HolderDevRisk(f), 0.55, 0.75, Some(0.9));
    var liquidity := LiquidityBin(f, 10.0);
    match DeadLaunchPrefilter(f)
    case PassCensored => Censored
    case PassAuditOnly => AuditOnly
    case PassReject => Reject
    case PassContinue =>
      if !f.horizonReached || f.horizon < 5 then InsufficientData
      else if !f.promoted then Reject
      else if curve == Missing || curve == Low then Reject
      else if netBuys == Missing then Reject
      else if volume == Missing then Reject
      else if sells == High || sells == Unsafe then Reject
      else if holders == High || holders == Unsafe then Reject
      else if liquidity == High || liquidity == Unsafe then Reject
      else if !f.exitObserved then InsufficientData
      else Review
  }

  predicate Clean(f: Features) {
    !f.qualityBlocked && !f.terminalInconclusive && !f.degraded && !f.rejected && !f.holderCollapse && !f.liquidityExit
  }

  predicate AtLeast(value: Option<real>, bound: real) {
    value.Some? && value.value >= bound
  }

  predicate Above(value: Option<real>, bound: real) {
    value.Some? && value.value > bound
  }

  predicate Below(value: Option<real>, bound: real) {
    value.None? || value.value < bound
  }

  /** The early-burst review rule in plain thresholds: the bins collapse to these. */
  lemma {:induction false} EarlyReviewExactly(f: Features)
    ensures EarlyDecision(f) == Review <==>
              && Clean(f) && f.horizonReached && f.horizon >= 5 && f.promoted && f.exitObserved
              && AtLeast(f.curve, 20.0) && Above(f.netBuys, 0.0) && Above(f.volume, 0.0)
              && Below(f.sells, 5.0) && Below(f.concentration, 0.75) && Below(f.devHolding, 0.75)
              && (f.liquidityDelta.None? || f.liquidityDelta.value > -10.0)
  {
  }

  /** Progress, trade and risk are good enough for the early track. */
  predicate EarlyStrong(f: Features) {
    && AtLeast(f.curve, 20.0) && Above(f.netBuys, 0.0) && Above(f.volume, 0.0)
    && Below(f.sells, 5.0) && Below(f.concentration, 0.75) && Below(f.devHolding, 0.75)
    && (f.liquidityDelta.None? || f.liquidityDelta.value > -10.0)
  }

  /** Where every other row of the early track ends up: a quality block wins over
      censoring, a strong row is only postponed until its exit is observed. */
  lemma {:induction false} EarlyOtherwiseExactly(f: Features)
    ensures EarlyDecision(f) == AuditOnly <==> f.qualityBlocked || (!f.terminalInconclusive && f.degraded)
    ensures EarlyDecision(f) == Censored <==> !f.qualityBlocked && f.terminalInconclusive
    ensures EarlyDecision(f) == InsufficientData <==>
              Clean(f) && (!f.horizonReached || f.horizon < 5 || (f.promoted && EarlyStrong(f) && !f.exitObserved))
    ensures EarlyDecision(f) == Reject <==>
              && !f.qualityBlocked && !f.terminalInconclusive && !f.degraded
              && (!Clean(f) || (f.horizonReached && f.horizon >= 5 && !(f.promoted && EarlyStrong(f))))
  {
  }

  /** `b` has the same flags, horizon and present fields as `a`. */
  predicate SameShape(a: Features, b: Features) {
    && a.horizon == b.horizon && a.horizonReached == b.horizonReached && a.qualityBlocked == b.qualityBlocked
    && a.terminalInconclusive == b.terminalInconclusive && a.degraded == b.degraded && a.rejected == b.rejected
    && a.holderCollapse == b.holderCollapse && a.liquidityExit == b.liquidityExit
    && a.promoted == b.promoted && a.exitObserved == b.exitObserved
    && (a.curve.Some? <==> b.curve.Some?) && (a.netBuys.Some? <==> b.netBuys.Some?)
    && (a.volume.Some? <==> b.volume.Some?) && (a.sells.Some? <==> b.sells.Some?)
    && (a.newHolders.Some? <==> b.newHolders.Some?) && (a.uniqueHolders.Some? <==> b.uniqueHolders.Some?)
    && (a.concentration.Some? <==> b.concentration.Some?) && (a.devHolding.Some? <==> b.devHolding.Some?)
    && (a.liquidityDelta.Some? <==> b.liquidityDelta.Some?)
  }

  predicate NoLess(a: Option<real>, b: Option<real>) {
    a.Some? && b.Some? ==> a.value <= b.value
  }

  /** `b` shows at least as much of what speaks for a launch as `a`, and no more
      of what speaks against it; holder counts are left open. */
  predicate NoWorse(a: Features, b: Features) {
    && SameShape(a, b)
    && NoLess(a.curve, b.curve) && NoLess(a.netBuys, b.netBuys) && NoLess(a.volume, b.volume)
    && NoLess(a.liquidityDelta, b.liquidityDelta)
    && NoLess(b.sells, a.sells) && NoLess(b.concentration, a.concentration) && NoLess(b.devHolding, a.devHolding)
  }

  /** A row that is no worse than a review row is a review row. */
  lemma {:induction false} EarlyReviewIsMonotone(a: Features, b: Features)
    requires NoWorse(a, b) && EarlyDecision(a) == Review
    ensures EarlyDecision(b) == Review
  {
    EarlyReviewExactly(a);
    EarlyReviewExactly(b);
  }

  // ----- survivor -----

  function HolderGrowth(f: Features): Option<real> {
    OrNext(f.newHolders, f.uniqueHolders)
  }

  function SurvivalBin(f: Features): Bin {
    if f.horizon >= 900 && f.horizonReached then High
    else if f.horizon >= 300 && f.horizonReached then Medium
    else if f.horizon >= 120 && f.horizonReached then Low
    else Missing
  }

  function StabilityBin(f: Features): Bin {
    match f.concentration
    case None => Missing
    case Some(v) => if v <= 0.45 then High else if v <= 0.65 then Medium else if v <= 0.8 then Low else Unsafe
  }

  /** The two bins of the survivor track as ranges. */
  lemma {:induction false} SurvivorBinsExactly(f: Features)
    ensures var b := SurvivalBin(f);
            && (b == High <==> f.horizonReached && f.horizon >= 900)
            && (b == Medium <==> f.horizonReached && 300 <= f.horizon < 900)
            && (b == Low <==> f.horizonReached && 120 <= f.horizon < 300)
            && (b == Missing <==> !f.horizonReached || f.horizon < 120)
    ensures var b, share := StabilityBin(f), f.concentration;
            && (b == Missing <==> share.None?)
            && (b == High <==> share.Some? && share.value <= 0.45)
            && (b == Medium <==> share.Some? && 0.45 < share.value <= 0.65)
            && (b == Low <==> share.Some? && 0.65 < share.value <= 0.8)
            && (b == Unsafe <==> share.Some? && share.value > 0.8)
  {
  }

  function SurvivorDecision(f: Features): Decision {
    var growth := BinPositive(HolderGrowth(f), 3.0, 8.0);
    var stability := StabilityBin(f);
    var holders := RiskBin(HolderDevRisk(f), 0.45, 0.65, Some(0.85));
    var curve := BinPositive(f.curve, 35.0, 70.0);
    var sells := RiskBin(f.sells, 2.0, 4.0, Some(6.0));
    var liquidity := LiquidityBin(f, 5.0);
    match DeadLaunchPrefilter(f)
    case PassCensored => Censored
    case PassAuditOnly => AuditOnly
    case PassReject => Reject
    case PassContinue =>
      if SurvivalBin(f) == Missing then InsufficientData
      else if SurvivalBin(f) == Low then ContinueObservation
      else if growth == Missing || growth == Low then ContinueObservation
      else if stability == Low || stability == Unsafe || holders == High || holders == Unsafe then Reject
      else if curve == Missing || curve == Low then ContinueObservation
      else if sells == High || sells == Unsafe then Reject
      else if liquidity == High || liquidity == Unsafe then Reject
      else Review
  }

  /** The survivor review rule in plain thresholds. The concentration bound is the
      stricter of the two bins that look at it. */
  lemma {:induction false} SurvivorReviewExactly(f: Features)
    ensures SurvivorDecision(f) == Review <==>
              && Clean(f) && f.horizonReached && f.horizon >= 300
              && AtLeast(HolderGrowth(f), 3.0) && AtLeast(f.curve, 35.0)
              && Below(f.sells, 4.0) && Below(f.concentration, 0.65) && Below(f.devHolding, 0.65)
              && (f.liquidityDelta.None? || f.liquidityDelta.value > -5.0)
  {
  }

  /** Where every other row of the survivor track ends up: weak growth is waited
      out before concentration is looked at, weak progress only after it. */
  lemma {:induction false} SurvivorOtherwiseExactly(f: Features)
    ensures SurvivorDecision(f) == InsufficientData <==> Clean(f) && (!f.horizonReached || f.horizon < 120)
    ensures SurvivorDecision(f) == ContinueObservation <==>
              && Clean(f) && f.horizonReached && f.horizon >= 120
              && (f.horizon < 300 || !AtLeast(HolderGrowth(f), 3.0)
                  || (Below(f.concentration, 0.65) && Below(f.devHolding, 0.65) && !AtLeast(f.curve, 35.0)))
    ensures SurvivorDecision(f) == Reject <==>
              && !f.qualityBlocked && !f.terminalInconclusive && !f.degraded
              && (!Clean(f) ||
                  (f.horizonReached && f.horizon >= 300 && AtLeast(HolderGrowth(f), 3.0)
                   && (!(Below(f.concentration, 0.65) && Below(f.devHolding, 0.65))
                       || (AtLeast(f.curve, 35.0)
                           && !(Below(f.sells, 4.0) && (f.liquidityDelta.None? || f.liquidityDelta.value > -5.0))))))
    ensures SurvivorDecision(f) in {AuditOnly, Censored} <==> EarlyDecision(f) in {AuditOnly, Censored}
  {
  }

  /** For a review row, a no-worse row with more new holders is a review row exactly
      when the holder growth that is actually used reaches 3. */
  lemma {:induction false} SurvivorStaysReviewExactly(a: Features, b: Features)
    requires NoWorse(a, b) && SurvivorDecision(a) == Review
    ensures SurvivorDecision(b) == Review <==> AtLeast(HolderGrowth(b), 3.0)
  {
    SurvivorReviewExactly(a);
    SurvivorReviewExactly(b);
  }

  /** A zero count of new holders falls back to the holder accounts seen, so one
      more new holder can cost a launch its review. */
  lemma {:induction false} OneMoreHolderCanLoseReview()
    ensures exists a: Features, b: Features ::
              NoWorse(a, b) && NoLess(a.newHolders, b.newHolders) && NoLess(a.uniqueHolders, b.uniqueHolders)
              && SurvivorDecision(a) == Review && SurvivorDecision(b) != Review
  {
    var a := Features(900, true, false, false, false, false, false, false, true, true,
                      Some(40.0), Some(3.0), Some(2.0), Some(0.0), Some(10.0), None, None, None, None);
    var b := a.(newHolders := Some(1.0));
    SurvivorReviewExactly(a);
    SurvivorReviewExactly(b);
  }

  /** Review needs more of the survivor track than of the early track on every
      shared measure. */
  lemma {:induction false} SurvivorIsStricter(f: Features)
    requires SurvivorDecision(f) == Review
    ensures f.promoted && f.exitObserved && Above(f.netBuys, 0.0) && Above(f.volume, 0.0) ==> EarlyDecision(f) == Review
  {
    SurvivorReviewExactly(f);
    EarlyReviewExactly(f);
  }
}
