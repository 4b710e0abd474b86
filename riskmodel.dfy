/**
 * The value types shared by the scoring core and the persistence layer:
 * risk factors, risk scores, the per-request security context and the
 * behaviour records kept in the history store.
 *
 * Scores and weights are exact integers in hundredths (10 stands for 0.1):
 * every constant of the system is a two-decimal value, and only sums,
 * comparisons and clamps are applied to them.
 */
module RiskModel {

  /** A value that may be absent; `None` stands for Java's `null`. */
  datatype Option<+T> = None | Some(value: T)

  /** One weighted signal produced by one detector (RiskFactor.java). */
  datatype RiskFactor = RiskFactor(name: string, weight: int, detail: string)

  /**
   * The aggregate risk of one request: a score in hundredths, the primary
   * reason, and the contributing factors in evaluation order.
   */
  datatype RiskScore = RiskScore(score: int, reason: string, factors: seq<RiskFactor>)

  /** What the scoring strategies see of one request. */
  datatype SecurityContext = SecurityContext(userId: string, requestUrl: Option<string>, ipAddress: string)

  /**
   * One recorded access event. `id` is `None` until the store assigns one;
   * `timestamp` is an abstract instant.
   */
  datatype UserBehavior = UserBehavior(
    id: Option<string>,
    userId: string,
    ipAddress: string,
    eventType: string,
    requestUrl: string,
    riskScore: RiskScore,
    timestamp: int)

  /** Upper bound of every score: 1.0. */
  const MaxRiskScore: int := 100

  const LowScore: int := 10
  const LowReason: string := "Contexte habituel."

  function Min(a: int, b: int): int
  {
    if a <= b then a else b
  }

  /** The two-argument RiskScore constructor: a score without factors. */
  function WithoutFactors(score: int, reason: string): (r: RiskScore)
    ensures r.score == score && r.reason == reason && r.factors == []
  {
    RiskScore(score, reason, [])
  }

  /** The fixed low-risk default, RiskScore.low(): 0.1, usual context, no factors. */
  function Low(): (r: RiskScore)
    ensures r.factors == [] && 0 <= r.score <= MaxRiskScore
  {
    WithoutFactors(LowScore, LowReason)
  }

  /** The secondary UserBehavior constructor: no id yet, the clock read passed in. */
  function NewBehavior(userId: string, ipAddress: string, eventType: string, requestUrl: string,
                       riskScore: RiskScore, now: int): (b: UserBehavior)
    ensures b.id.None? && b.timestamp == now
    ensures b.userId == userId && b.ipAddress == ipAddress && b.eventType == eventType
    ensures b.requestUrl == requestUrl && b.riskScore == riskScore
  {
    UserBehavior(None, userId, ipAddress, eventType, requestUrl, riskScore, now)
  }
}
