/**
 * The baseline strategy SimpleRuleEngine.calculateRisk: two fixed rules tried
 * in order, with no history and no decoding. It is the strategy the
 * auto-configuration installs when no other one is defined.
 */
module SimpleRules {
  import opened RiskModel
  import opened Strings

  const LoopbackIp: string := "127.0.0.1"
  const LoopbackScore: int := 50
  const LoopbackReason: string := "Accès à partir de l'IP de développement : 127.0.0.1. Risque Moyen."
  const CriticalMarker: string := "riskhigh"
  const CriticalScore: int := 90
  const CriticalReason: string := "Simulation de tentative d'injection SQL détectée."

  /**
   * The request URL is only read when the IP is not the loopback address;
   * a missing URL there throws a NullPointerException, which callers avoid.
   */
  predicate CanScore(context: SecurityContext)
  {
    context.ipAddress == LoopbackIp || context.requestUrl.Some?
  }

  /** SimpleRuleEngine.calculateRisk. */
  function CalculateRisk(context: SecurityContext): (r: RiskScore)
    requires CanScore(context)
    ensures r.factors == []
    ensures context.ipAddress == LoopbackIp ==> r.score == LoopbackScore && r.reason == LoopbackReason
    ensures context.ipAddress != LoopbackIp && Contains(context.requestUrl.value, CriticalMarker) ==>
              r.score == CriticalScore && r.reason == CriticalReason
    ensures context.ipAddress != LoopbackIp && !Contains(context.requestUrl.value, CriticalMarker) ==> r == Low()
  {
    if context.ipAddress == LoopbackIp then WithoutFactors(LoopbackScore, LoopbackReason)
    else if Contains(context.requestUrl.value, CriticalMarker) then WithoutFactors(CriticalScore, CriticalReason)
    else Low()
  }

  /** Every result lies in [0.0, 1.0] and is one of the three fixed scores. */
  lemma ScoreInRange(context: SecurityContext)
    requires CanScore(context)
    ensures 0 <= CalculateRisk(context).score <= MaxRiskScore
    ensures CalculateRisk(context).score in {LowScore, LoopbackScore, CriticalScore}
  {
  }

  /** The result is determined by the IP alone for the loopback address, whatever the URL. */
  lemma LoopbackTakesPrecedence(userId: string, url: Option<string>)
    ensures CalculateRisk(SecurityContext(userId, url, LoopbackIp)).score == LoopbackScore
    ensures CalculateRisk(SecurityContext(userId, Some("/riskhigh"), LoopbackIp)).score != CriticalScore
  {
  }

  /** The marker is matched case-sensitively: an upper-case marker does not count. */
  lemma MatchingIsCaseSensitive(userId: string, ip: string)
    requires ip != LoopbackIp
    ensures CalculateRisk(SecurityContext(userId, Some("/api/RISKHIGH"), ip)) == Low()
    ensures CalculateRisk(SecurityContext(userId, Some("/api/riskhigh"), ip)).score == CriticalScore
  {
    var upper, plain := "/api/RISKHIGH", "/api/riskhigh";
    assert 'r' !in upper;
    MissingCharNotContained(upper, CriticalMarker, 0);
    assert ContainsAt(plain, CriticalMarker, 5);
  }

  /** The marker is matched on the raw URL: a percent-escaped marker does not count. */
  lemma MatchingIsUndecoded(userId: string, ip: string)
    requires ip != LoopbackIp
    ensures CalculateRisk(SecurityContext(userId, Some("/api/%72iskhigh"), ip)) == Low()
  {
    var escaped := "/api/%72iskhigh";
    assert 'r' !in escaped;
    MissingCharNotContained(escaped, CriticalMarker, 0);
  }
}
