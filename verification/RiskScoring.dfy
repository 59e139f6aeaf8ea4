/** Risk score and tier of an advisory. */
module RiskScoring {
  import opened RealMath

  const RISK_SCORE_CAP := 4.0

  /** ASCII part of Python's `str.upper`. */
  function Upper(s: string): (r: string) {
    seq(|s|, i requires 0 <= i < |s| => if 'a' <= s[i] <= 'z' then s[i] - 'a' + 'A' else s[i])
  }

  function SeverityWeight(severity: string): (w: real)
    ensures 1.0 <= w <= 4.0
  {
    var s := Upper(severity);
    if s == "CRITICAL" then 4.0 else if s == "HIGH" then 3.0 else if s == "MEDIUM" then 2.0 else 1.0
  }

  /** `compute_risk_score` */
  function RiskScore(probability: real, severity: string): real {
    var product := probability * SeverityWeight(severity);
    if RISK_SCORE_CAP < product then RISK_SCORE_CAP else product
  }

  /** `compute_risk_tier` */
  function RiskTier(score: real): (tier: int)
    ensures 1 <= tier <= 3
  {
    if score >= 3.2 then 1 else if score >= 2.0 then 2 else 3
  }

  /** The score stays in [0, 4] exactly when the probability is not negative; probabilities above one are capped. */
  lemma RiskScoreBounds(probability: real, severity: string)
    ensures 0.0 <= RiskScore(probability, severity) <= 4.0 <==> probability >= 0.0
  {
    hide SeverityWeight;
    SignOfProduct(probability, SeverityWeight(severity));
  }

  lemma SignOfProduct(a: real, b: real)
    requires b >= 1.0
    ensures a * b >= 0.0 <==> a >= 0.0
  {
    if a >= 0.0 {
      ProductNonNegative(a, b);
    } else {
      StrictProduct(-a, b);
    }
  }

  /** With a genuine probability, only critical advisories can ever need two controllers. */
  lemma DualAuthorizationOnlyCritical(probability: real, severity: string)
    requires probability <= 1.0
    ensures RiskTier(RiskScore(probability, severity)) == 1 <==> Upper(severity) == "CRITICAL" && probability >= 0.8
  {
    var w := SeverityWeight(severity);
    if Upper(severity) != "CRITICAL" {
      assert w <= 3.0;
      hide SeverityWeight, Upper;
      if probability > 0.0 {
        ProductNonNegative(1.0 - probability, w);
      } else {
        ProductNonNegative(-probability, w);
      }
    }
  }

  /** The tier at every severity and probability; unknown severities count as low. */
  lemma TierTable(probability: real, severity: string)
    ensures var s, tier := Upper(severity), RiskTier(RiskScore(probability, severity));
            && (s == "CRITICAL" ==>
                  && (tier == 1 <==> probability >= 0.8)
                  && (tier == 2 <==> 0.5 <= probability < 0.8))
            && (s == "HIGH" ==>
                  && (tier == 1 <==> probability >= 16.0 / 15.0)
                  && (tier == 2 <==> 2.0 / 3.0 <= probability < 16.0 / 15.0))
            && (s == "MEDIUM" ==>
                  && (tier == 1 <==> probability >= 1.6)
                  && (tier == 2 <==> 1.0 <= probability < 1.6))
            && (s != "CRITICAL" && s != "HIGH" && s != "MEDIUM" ==>
                  && (tier == 1 <==> probability >= 3.2)
                  && (tier == 2 <==> 2.0 <= probability < 3.2))
  {
  }
}
