/** ICP fit, urgency and conversion scores (workers/qualification/icp_scoring.py and urgency.py). */
module Scoring {
  import opened Rounding

  datatype PainType =
    | QuestionnaireOverload | FirstEnterpriseReview | EvidenceChaos | TrustCenterPressure
    | ComplianceScaling | CertificationPrep | VendorRiskFriction | UnknownPain

  datatype Pain = Pain(painType: PainType, confidence: real)

  datatype Firmographics = Firmographics(isB2b: real, sizeBand: string, enterpriseMotion: real, industry: string)

  datatype Bucket = StrongFit | GoodFit | Marginal | OutOfBounds

  /** What the score is put down to. */
  datatype Rule =
    | B2bFit | SizeFit(sizeBand: string) | EnterpriseMotion
    | IndustryFit(industry: string) | PainFit(painType: PainType)

  datatype Penalty = LikelyB2c | EnterpriseMayNotNeed | NegativeSignals(penalty: real)

  datatype IcpScore = IcpScore(score: real, bucket: Bucket, rules: seq<Rule>, penalties: seq<Penalty>)

  datatype UrgencyScore = UrgencyScore(urgency: real, monetization: real)

  const STRONG_INDUSTRIES: set<string> := {"saas", "fintech", "healthtech", "devtools", "cybersecurity"}

  function Min(x: real, y: real): real {
    if y < x then y else x
  }

  // ---- ICP fit ---------------------------------------------------------------------------------

  function B2bPoints(isB2b: real): real {
    if isB2b >= 0.6 then 0.20 else if isB2b < 0.3 then -0.15 else 0.0
  }

  function SizePoints(sizeBand: string): real {
    if sizeBand == "micro" then 0.05
    else if sizeBand == "small" then 0.15
    else if sizeBand == "mid" then 0.20
    else if sizeBand == "growth" then 0.18
    else if sizeBand == "enterprise" then 0.08
    else 0.05
  }

  function MotionPoints(enterpriseMotion: real): real {
    if enterpriseMotion >= 0.3 then 0.15 else 0.0
  }

  function IndustryPoints(industry: string): real {
    if industry in STRONG_INDUSTRIES then 0.15 else if industry == "unknown" then 0.05 else 0.0
  }

  predicate KnownPain(pains: seq<Pain>) {
    pains != [] && !pains[0].painType.UnknownPain?
  }

  function PainBonus(pains: seq<Pain>): real {
    if KnownPain(pains) then Min(0.20, pains[0].confidence * 0.25) else 0.0
  }

  function BucketOf(score: real): Bucket {
    if score >= 0.75 then StrongFit
    else if score >= 0.50 then GoodFit
    else if score >= 0.30 then Marginal
    else OutOfBounds
  }

  /** The clamped sum of all contributions, before rounding; the bucket is taken from this value. */
  function RawIcp(f: Firmographics, pains: seq<Pain>, hasNegatives: bool, negativeWeight: real): real {
    Clamp(B2bPoints(f.isB2b) + SizePoints(f.sizeBand) + MotionPoints(f.enterpriseMotion)
          + IndustryPoints(f.industry) + PainBonus(pains)
          - (if hasNegatives then Min(0.25, negativeWeight * 0.3) else 0.0))
  }

  /** The rules that a firm matches, in the order of the tests. */
  function FirmRules(f: Firmographics): seq<Rule> {
    (if f.isB2b >= 0.6 then [B2bFit] else [])
    + (if SizePoints(f.sizeBand) >= 0.15 then [SizeFit(f.sizeBand)] else [])
    + (if f.enterpriseMotion >= 0.3 then [EnterpriseMotion] else [])
    + (if f.industry in STRONG_INDUSTRIES then [IndustryFit(f.industry)] else [])
  }

  function FirmPenalties(f: Firmographics): seq<Penalty> {
    (if f.isB2b < 0.3 then [LikelyB2c] else [])
    + (if f.sizeBand == "enterprise" then [EnterpriseMayNotNeed] else [])
  }

  function Icp(f: Firmographics, pains: seq<Pain>, hasNegatives: bool, negativeWeight: real): IcpScore {
    var raw := RawIcp(f, pains, hasNegatives, negativeWeight);
    IcpScore(Round3(raw), BucketOf(raw),
             FirmRules(f) + (if KnownPain(pains) then [PainFit(pains[0].painType)] else []),
             FirmPenalties(f) + (if hasNegatives then [NegativeSignals(Min(0.25, negativeWeight * 0.3))] else []))
  }

  /** The tests of `score_icp` that concern the firm. */
  method ScoreFirm(f: Firmographics) returns (score: real, rules: seq<Rule>, penalties: seq<Penalty>)
    ensures score == B2bPoints(f.isB2b) + SizePoints(f.sizeBand) + MotionPoints(f.enterpriseMotion)
            + IndustryPoints(f.industry)
    ensures rules == FirmRules(f) && penalties == FirmPenalties(f)
  {
    score, rules, penalties := 0.0, [], [];
    if f.isB2b >= 0.6 {
      score, rules := score + 0.20, rules + [B2bFit];
    } else if f.isB2b < 0.3 {
      score, penalties := score - 0.15, penalties + [LikelyB2c];
    }
    assert score == B2bPoints(f.isB2b);
    var sizePoints := SizePoints(f.sizeBand);
    score := score + sizePoints;
    if sizePoints >= 0.15 {
      rules := rules + [SizeFit(f.sizeBand)];
    }
    if f.sizeBand == "enterprise" {
      penalties := penalties + [EnterpriseMayNotNeed];
    }
    if f.enterpriseMotion >= 0.3 {
      score, rules := score + 0.15, rules + [EnterpriseMotion];
    }
    if f.industry in STRONG_INDUSTRIES {
      score, rules := score + 0.15, rules + [IndustryFit(f.industry)];
    } else if f.industry == "unknown" {
      score := score + 0.05;
    }
  }

  method ScoreIcp(f: Firmographics, pains: seq<Pain>, hasNegatives: bool, negativeWeight: real) returns (r: IcpScore)
    ensures r == Icp(f, pains, hasNegatives, negativeWeight)
  {
    var score, rules, penalties := ScoreFirm(f);
    if |pains| > 0 && pains[0].painType != UnknownPain {
      var painBonus := Min(0.20, pains[0].confidence * 0.25);
      score, rules := score + painBonus, rules + [PainFit(pains[0].painType)];
    }
    if hasNegatives {
      var penalty := Min(0.25, negativeWeight * 0.3);
      score, penalties := score - penalty, penalties + [NegativeSignals(penalty)];
    }
    score := Clamp(score);
    assert score == RawIcp(f, pains, hasNegatives, negativeWeight);
    var bucket := OutOfBounds;
    if score >= 0.75 {
      bucket := StrongFit;
    } else if score >= 0.50 {
      bucket := GoodFit;
    } else if score >= 0.30 {
      bucket := Marginal;
    }
    return IcpScore(Round3(score), bucket, rules, penalties);
  }

  // ---- urgency and conversion --------------------------------------------------------------------

  /** What a known pain adds to the urgency, by its type. */
  function PainUrgency(pains: seq<Pain>): real {
    if !KnownPain(pains) then 0.0
    else if pains[0].painType in {FirstEnterpriseReview, TrustCenterPressure, QuestionnaireOverload}
        then 0.30 * pains[0].confidence
    else if pains[0].painType in {CertificationPrep, VendorRiskFriction} then 0.20 * pains[0].confidence
    else 0.10 * pains[0].confidence
  }

  function PainClarity(pains: seq<Pain>): real {
    if KnownPain(pains) then pains[0].confidence * 0.25 else 0.0
  }

  function Damping(negativeWeight: real, factor: real, limit: real): real {
    if negativeWeight > 0.0 then Min(limit, negativeWeight * factor) else 0.0
  }

  function Urgency(pains: seq<Pain>, icp: IcpScore, whyNow: real, negativeWeight: real): UrgencyScore {
    UrgencyScore(
      Round3(Clamp(whyNow * 0.45 + PainUrgency(pains) - Damping(negativeWeight, 0.15, 0.20))),
      Round3(Clamp(icp.score * 0.50 + PainClarity(pains) + whyNow * 0.15 - Damping(negativeWeight, 0.2, 0.25))))
  }

  method ScoreUrgency(pains: seq<Pain>, icp: IcpScore, whyNow: real, negativeWeight: real) returns (r: UrgencyScore)
    ensures r == Urgency(pains, icp, whyNow, negativeWeight)
  {
    var urgency := 0.0;
    urgency := urgency + whyNow * 0.45;
    if |pains| > 0 && pains[0].painType != UnknownPain {
      var topPain := pains[0];
      if topPain.painType in {FirstEnterpriseReview, TrustCenterPressure, QuestionnaireOverload} {
        urgency := urgency + 0.30 * topPain.confidence;
      } else if topPain.painType in {CertificationPrep, VendorRiskFriction} {
        urgency := urgency + 0.20 * topPain.confidence;
      } else {
        urgency := urgency + 0.10 * topPain.confidence;
      }
    }
    if negativeWeight > 0.0 {
      var penalty := Min(0.20, negativeWeight * 0.15);
      urgency := urgency - penalty;
    }
    urgency := Clamp(urgency);

    var mon := 0.0;
    mon := mon + icp.score * 0.50;
    if |pains| > 0 && pains[0].painType != UnknownPain {
      mon := mon + pains[0].confidence * 0.25;
    }
    mon := mon + whyNow * 0.15;
    if negativeWeight > 0.0 {
      var penalty := Min(0.25, negativeWeight * 0.2);
      mon := mon - penalty;
    }
    mon := Clamp(mon);
    return UrgencyScore(Round3(urgency), Round3(mon));
  }

  // ---- what the scores are made of ----------------------------------------------------------------------

  /** What a matched rule is worth; a pain is worth a quarter of its confidence, and at most 0.20. */
  function Worth(rule: Rule, pains: seq<Pain>): real {
    match rule
    case B2bFit => 0.20
    case SizeFit(band) => if band == "mid" then 0.20 else if band == "growth" then 0.18 else 0.15
    case EnterpriseMotion => 0.15
    case IndustryFit(_) => 0.15
    case PainFit(_) => if pains == [] || pains[0].confidence >= 0.8 then 0.20 else pains[0].confidence * 0.25
  }

  function TotalWorth(rules: seq<Rule>, pains: seq<Pain>): real {
    if rules == [] then 0.0 else TotalWorth(rules[..|rules| - 1], pains) + Worth(rules[|rules| - 1], pains)
  }

  lemma {:induction false} TotalWorthOfAppend(rules: seq<Rule>, more: seq<Rule>, pains: seq<Pain>)
    ensures TotalWorth(rules + more, pains) == TotalWorth(rules, pains) + TotalWorth(more, pains)
  {
    if more == [] {
      assert rules + more == rules;
    } else {
      TotalWorthOfAppend(rules, more[..|more| - 1], pains);
      assert (rules + more)[..|rules + more| - 1] == rules + more[..|more| - 1];
    }
  }

  lemma WorthOfOne(listed: bool, rule: Rule, pains: seq<Pain>)
    ensures TotalWorth(if listed then [rule] else [], pains) == if listed then Worth(rule, pains) else 0.0
  {
    assert [rule][..0] == [];
  }

  lemma WorthOfFour(a: seq<Rule>, b: seq<Rule>, c: seq<Rule>, d: seq<Rule>, pains: seq<Pain>)
    ensures TotalWorth(a + b + c + d, pains) ==
            TotalWorth(a, pains) + TotalWorth(b, pains) + TotalWorth(c, pains) + TotalWorth(d, pains)
  {
    TotalWorthOfAppend(a + b + c, d, pains);
    TotalWorthOfAppend(a + b, c, pains);
    TotalWorthOfAppend(a, b, pains);
  }

  /** What counts without being listed as a rule: sizes that fit less, and an unknown industry. */
  function Unlisted(f: Firmographics): real {
    (if f.sizeBand in {"small", "mid", "growth"} then 0.0 else if f.sizeBand == "enterprise" then 0.08 else 0.05)
    + (if f.industry == "unknown" then 0.05 else 0.0)
  }

  /** What the penalties take away. */
  function Deduction(f: Firmographics, hasNegatives: bool, negativeWeight: real): real {
    (if f.isB2b < 0.3 then 0.15 else 0.0)
    + (if !hasNegatives then 0.0 else if negativeWeight * 0.3 < 0.25 then negativeWeight * 0.3 else 0.25)
  }

  /** What the listed rules of a firm are worth. */
  function FirmWorth(f: Firmographics): real {
    (if f.isB2b >= 0.6 then 0.20 else 0.0)
    + (if f.sizeBand == "mid" then 0.20 else if f.sizeBand == "growth" then 0.18
       else if f.sizeBand == "small" then 0.15 else 0.0)
    + (if f.enterpriseMotion >= 0.3 then 0.15 else 0.0)
    + (if f.industry in {"saas", "fintech", "healthtech", "devtools", "cybersecurity"} then 0.15 else 0.0)
  }

  lemma FirmRulesAreWorth(f: Firmographics, pains: seq<Pain>)
    ensures TotalWorth(FirmRules(f), pains) == FirmWorth(f)
  {
    var b2b, size := f.isB2b >= 0.6, SizePoints(f.sizeBand) >= 0.15;
    var motion, industry := f.enterpriseMotion >= 0.3, f.industry in STRONG_INDUSTRIES;
    WorthOfFour(if b2b then [B2bFit] else [], if size then [SizeFit(f.sizeBand)] else [],
                if motion then [EnterpriseMotion] else [], if industry then [IndustryFit(f.industry)] else [], pains);
    WorthOfOne(b2b, B2bFit, pains);
    WorthOfOne(size, SizeFit(f.sizeBand), pains);
    WorthOfOne(motion, EnterpriseMotion, pains);
    WorthOfOne(industry, IndustryFit(f.industry), pains);
  }

  lemma FirmPointsAreWorth(f: Firmographics)
    ensures B2bPoints(f.isB2b) + SizePoints(f.sizeBand) + MotionPoints(f.enterpriseMotion) + IndustryPoints(f.industry)
            == FirmWorth(f) + Unlisted(f) - (if f.isB2b < 0.3 then 0.15 else 0.0)
  {
  }

  lemma RulesAreWorth(f: Firmographics, pains: seq<Pain>, hasNegatives: bool, negativeWeight: real)
    ensures TotalWorth(Icp(f, pains, hasNegatives, negativeWeight).rules, pains) == FirmWorth(f) + PainBonus(pains)
  {
    FirmRulesAreWorth(f, pains);
    TotalWorthOfAppend(FirmRules(f), if KnownPain(pains) then [PainFit(pains[0].painType)] else [], pains);
    if KnownPain(pains) {
      WorthOfOne(true, PainFit(pains[0].painType), pains);
    }
  }

  lemma RawIcpIsWorth(f: Firmographics, pains: seq<Pain>, hasNegatives: bool, negativeWeight: real)
    ensures RawIcp(f, pains, hasNegatives, negativeWeight) ==
            Clamp(FirmWorth(f) + PainBonus(pains) + Unlisted(f) - Deduction(f, hasNegatives, negativeWeight))
  {
    FirmPointsAreWorth(f);
  }

  /** The bucket of a value between zero and one. */
  ghost predicate IsInBucket(value: real, bucket: Bucket) {
    && (bucket == StrongFit <==> value >= 0.75)
    && (bucket == GoodFit <==> 0.50 <= value < 0.75)
    && (bucket == Marginal <==> 0.30 <= value < 0.50)
    && (bucket == OutOfBounds <==> value < 0.30)
  }

  /**
   The score explains itself: it is the worth of the rules it lists, plus what is not listed, less the
   deductions, clamped and rounded; the bucket goes by the value before rounding.
   */
  lemma IcpIsWhatItsRulesAreWorth(f: Firmographics, pains: seq<Pain>, hasNegatives: bool, negativeWeight: real,
                                  worth: real)
    requires worth == TotalWorth(Icp(f, pains, hasNegatives, negativeWeight).rules, pains)
    ensures var icp := Icp(f, pains, hasNegatives, negativeWeight);
            var value := Clamp(worth + Unlisted(f) - Deduction(f, hasNegatives, negativeWeight));
            icp.score == Round3(value) && IsInBucket(value, icp.bucket)
  {
    RulesAreWorth(f, pains, hasNegatives, negativeWeight);
    RawIcpIsWorth(f, pains, hasNegatives, negativeWeight);
  }

  /** A pain is listed exactly when the leading one is known, a penalty exactly when it deducts. */
  lemma RulesAndPenaltiesAreListedIff(f: Firmographics, pains: seq<Pain>, hasNegatives: bool, negativeWeight: real)
    ensures var icp := Icp(f, pains, hasNegatives, negativeWeight);
            && (B2bFit in icp.rules <==> f.isB2b >= 0.6)
            && (SizeFit(f.sizeBand) in icp.rules <==> f.sizeBand in {"small", "mid", "growth"})
            && (EnterpriseMotion in icp.rules <==> f.enterpriseMotion >= 0.3)
            && (IndustryFit(f.industry) in icp.rules <==>
                f.industry in {"saas", "fintech", "healthtech", "devtools", "cybersecurity"})
            && (forall p :: PainFit(p) in icp.rules <==> pains != [] && p == pains[0].painType && p != UnknownPain)
            && (LikelyB2c in icp.penalties <==> f.isB2b < 0.3)
            && (EnterpriseMayNotNeed in icp.penalties <==> f.sizeBand == "enterprise")
            && (forall x :: NegativeSignals(x) in icp.penalties ==> hasNegatives)
  {
    ListedByFirm(f);
    var icp := Icp(f, pains, hasNegatives, negativeWeight);
    var pain := if KnownPain(pains) then [PainFit(pains[0].painType)] else [];
    assert forall r :: r in icp.rules <==> r in FirmRules(f) || r in pain;
  }

  lemma ListedByFirm(f: Firmographics)
    ensures B2bFit in FirmRules(f) <==> f.isB2b >= 0.6
    ensures SizeFit(f.sizeBand) in FirmRules(f) <==> f.sizeBand in {"small", "mid", "growth"}
    ensures EnterpriseMotion in FirmRules(f) <==> f.enterpriseMotion >= 0.3
    ensures IndustryFit(f.industry) in FirmRules(f) <==> f.industry in STRONG_INDUSTRIES
    ensures forall p :: PainFit(p) !in FirmRules(f)
  {
  }

  /** How urgent each kind of pain is, for full confidence. */
  function PainWeight(painType: PainType): real {
    match painType
    case QuestionnaireOverload => 0.30
    case FirstEnterpriseReview => 0.30
    case TrustCenterPressure => 0.30
    case CertificationPrep => 0.20
    case VendorRiskFriction => 0.20
    case EvidenceChaos => 0.10
    case ComplianceScaling => 0.10
    case UnknownPain => 0.0
  }

  /** Both scores, from the weight of the leading pain alone; only positive weights dampen them. */
  lemma UrgencyIsWeightedSum(pains: seq<Pain>, icp: IcpScore, whyNow: real, negativeWeight: real)
    ensures var known := pains != [] && pains[0].painType != UnknownPain;
            var weight, confidence := if known then PainWeight(pains[0].painType) else 0.0,
                                      if known then pains[0].confidence else 0.0;
            var dampen := if negativeWeight <= 0.0 then 0.0 else negativeWeight;
            var u := Urgency(pains, icp, whyNow, negativeWeight);
            && u.urgency == Round3(Clamp(0.45 * whyNow + weight * confidence
                                         - (if 0.15 * dampen < 0.20 then 0.15 * dampen else 0.20)))
            && u.monetization == Round3(Clamp(0.50 * icp.score + 0.25 * confidence + 0.15 * whyNow
                                              - (if 0.2 * dampen < 0.25 then 0.2 * dampen else 0.25)))
  {
  }

  // ---- ranges and monotonicity ---------------------------------------------------------------------

  lemma IcpInUnitInterval(f: Firmographics, pains: seq<Pain>, hasNegatives: bool, negativeWeight: real)
    ensures 0.0 <= Icp(f, pains, hasNegatives, negativeWeight).score <= 1.0
  {
    Round3KeepsUnitInterval(RawIcp(f, pains, hasNegatives, negativeWeight));
  }

  lemma UrgencyInUnitInterval(pains: seq<Pain>, icp: IcpScore, whyNow: real, negativeWeight: real)
    ensures var u := Urgency(pains, icp, whyNow, negativeWeight);
            0.0 <= u.urgency <= 1.0 && 0.0 <= u.monetization <= 1.0
  {
    Round3KeepsUnitInterval(Clamp(whyNow * 0.45 + PainUrgency(pains) - Damping(negativeWeight, 0.15, 0.20)));
    Round3KeepsUnitInterval(Clamp(icp.score * 0.50 + PainClarity(pains)
        + whyNow * 0.15 - Damping(negativeWeight, 0.2, 0.25)));
  }

  /** The same pains, the leading one at least as certain. */
  ghost predicate PainsNoWeaker(more: seq<Pain>, less: seq<Pain>) {
    && (more == [] <==> less == [])
    && (less != [] ==> more[0].painType == less[0].painType && more[0].confidence >= less[0].confidence)
  }

  /** The same size and industry, no less B2B and no less enterprise motion. */
  ghost predicate FirmNoWorse(more: Firmographics, less: Firmographics) {
    && more.sizeBand == less.sizeBand && more.industry == less.industry
    && more.isB2b >= less.isB2b && more.enterpriseMotion >= less.enterpriseMotion
  }

  function BucketRank(b: Bucket): int {
    match b
    case StrongFit => 3
    case GoodFit => 2
    case Marginal => 1
    case OutOfBounds => 0
  }

  lemma IcpIsMonotone(f: Firmographics, g: Firmographics, pains: seq<Pain>, qains: seq<Pain>, hasNegatives: bool,
                      v: real, w: real)
    requires FirmNoWorse(f, g) && PainsNoWeaker(pains, qains) && v <= w
    ensures Icp(f, pains, hasNegatives, v).score >= Icp(g, qains, hasNegatives, w).score
    ensures BucketRank(Icp(f, pains, hasNegatives, v).bucket) >= BucketRank(Icp(g, qains, hasNegatives, w).bucket)
  {
    assert PainBonus(pains) >= PainBonus(qains);
    assert RawIcp(f, pains, hasNegatives, v) >= RawIcp(g, qains, hasNegatives, w);
    Round3IsMonotone(RawIcp(g, qains, hasNegatives, w), RawIcp(f, pains, hasNegatives, v));
  }

  lemma UrgencyIsMonotone(pains: seq<Pain>, qains: seq<Pain>, icp: IcpScore, jcp: IcpScore, why: real, whz: real,
                          v: real, w: real)
    requires PainsNoWeaker(pains, qains) && icp.score >= jcp.score && why >= whz && v <= w
    ensures Urgency(pains, icp, why, v).urgency >= Urgency(qains, jcp, whz, w).urgency
    ensures Urgency(pains, icp, why, v).monetization >= Urgency(qains, jcp, whz, w).monetization
  {
    Round3IsMonotone(Clamp(whz * 0.45 + PainUrgency(qains) - Damping(w, 0.15, 0.20)),
                     Clamp(why * 0.45 + PainUrgency(pains) - Damping(v, 0.15, 0.20)));
    Round3IsMonotone(Clamp(jcp.score * 0.50 + PainClarity(qains) + whz * 0.15 - Damping(w, 0.2, 0.25)),
                     Clamp(icp.score * 0.50 + PainClarity(pains) + why * 0.15 - Damping(v, 0.2, 0.25)));
  }
}
