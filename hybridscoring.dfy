/**
 * BehavioralScoringEngine: the hybrid scorer. A behavioural factor comes from
 * the predictor over the user's recent history, content factors from
 * keyword heuristics over the URL-decoded, lower-cased request URL. The
 * score is the capped sum of the factor weights and the reason is the detail
 * of the heaviest factor.
 *
 * In the source the engine depends on the BehaviorRepository interface only.
 * Here it holds the store of BehaviorService, and the only operation it uses
 * is that store's FindRecentByUserId.
 */
module HybridScoring {
  import opened RiskModel
  import opened Strings
  import opened UrlDecoding
  import opened MLPrediction
  import opened BehaviorService

  /** How many history records the behavioural analysis fetches. */
  const HistoryLimit: nat := 50
  /** Predictions above 0.5 would give the strong factor, above 0.3 the mild one. */
  const MlHighThreshold: int := 50
  const MlMildThreshold: int := 30

  const MlHighFactor: RiskFactor := RiskFactor("ML_PREDICTION", 50, "Comportement anormal élevé détecté par ML.")
  const MlMildFactor: RiskFactor := RiskFactor("ML_PREDICTION", 20, "Comportement légèrement suspect détecté par ML.")
  const SqlFactor: RiskFactor := RiskFactor("SQL_HEURISTIC", 60, "Mot-clé SQL dangereux détecté.")
  const XssFactor: RiskFactor := RiskFactor("XSS_HEURISTIC", 50, "Pattern XSS potentiel détecté.")
  const CriticalFactor: RiskFactor := RiskFactor("CRITICAL_URL", 90, "Pattern critique détecté (test).")
  const DecodeErrorFactor: RiskFactor := RiskFactor("DECODE_ERROR_SUSPICION", 50, "Requête suspecte mal formée.")
  /** The reason used when no maximal factor exists; calculateRisk never reaches it. */
  const FallbackReason: string := "Facteurs divers."

  /** Position of a factor kind in the order the analyses append them. */
  function Rank(f: RiskFactor): nat
  {
    if f.name == MlMildFactor.name then 0
    else if f.name == SqlFactor.name || f.name == DecodeErrorFactor.name then 1
    else if f.name == XssFactor.name then 2
    else 3
  }

  /** Factors appear in analysis order, each kind at most once. */
  predicate InAnalysisOrder(factors: seq<RiskFactor>)
  {
    forall i, j :: 0 <= i < j < |factors| ==> Rank(factors[i]) < Rank(factors[j])
  }

  // ---------------------------------------------------------------------
  // Behavioural analysis
  // ---------------------------------------------------------------------

  /** The factor analyzeMachineLearning appends for a prediction. */
  function MlFactors(prediction: int): (factors: seq<RiskFactor>)
    ensures prediction > MlHighThreshold <==> factors == [MlHighFactor]
    ensures MlMildThreshold < prediction <= MlHighThreshold <==> factors == [MlMildFactor]
    ensures prediction <= MlMildThreshold <==> factors == []
  {
    if prediction > MlHighThreshold then [MlHighFactor]
    else if prediction > MlMildThreshold then [MlMildFactor]
    else []
  }

  /**
   * The predictor never exceeds 0.5, so the strong factor is unreachable;
   * the mild one is added exactly for a non-empty history that lacks the IP.
   */
  lemma MlBanding(context: SecurityContext, history: seq<UserBehavior>)
    ensures MlFactors(PredictRisk(context, history)) ==
              if history != [] && !IsKnownIp(context.ipAddress, history) then [MlMildFactor] else []
    ensures MlHighFactor !in MlFactors(PredictRisk(context, history))
  {
    var p := PredictRisk(context, history);
    if history != [] && IsKnownIp(context.ipAddress, history) {
      assert p <= BaseRisk;
    }
  }

  // ---------------------------------------------------------------------
  // Content analysis
  // ---------------------------------------------------------------------

  predicate HasSqlMarker(text: string)
  {
    Contains(text, "select") || Contains(text, "union") || Contains(text, "--")
  }

  predicate HasXssMarker(text: string)
  {
    Contains(text, "<script>") || Contains(text, "onerror") || Contains(text, "alert(")
  }

  predicate HasCriticalMarker(text: string)
  {
    Contains(text, "riskhigh")
  }

  /** The only markers still looked for when the URL cannot be decoded. */
  predicate HasRawSuspicion(text: string)
  {
    Contains(text, "select") || Contains(text, "<script>")
  }

  /** The heuristics on decoded, lower-cased content: one factor per matching family, in order. */
  function DecodedHeuristics(text: string): (factors: seq<RiskFactor>)
    ensures SqlFactor in factors <==> HasSqlMarker(text)
    ensures XssFactor in factors <==> HasXssMarker(text)
    ensures CriticalFactor in factors <==> HasCriticalMarker(text)
    ensures forall f :: f in factors ==> f == SqlFactor || f == XssFactor || f == CriticalFactor
    ensures |factors| <= 3 && InAnalysisOrder(factors)
  {
    (if HasSqlMarker(text) then [SqlFactor] else [])
    + (if HasXssMarker(text) then [XssFactor] else [])
    + (if HasCriticalMarker(text) then [CriticalFactor] else [])
  }

  /**
   * The factors analyzeContent appends: none without a URL; the decoded
   * heuristics when the URL decodes; otherwise at most the suspicion factor,
   * exactly when the raw lower-cased URL holds "select" or "<script>".
   */
  function ContentFactors(requestUrl: Option<string>): (factors: seq<RiskFactor>)
    ensures requestUrl.None? ==> factors == []
    ensures requestUrl.Some? && Decode(requestUrl.value).Some? ==>
              factors == DecodedHeuristics(ToLowerAscii(Decode(requestUrl.value).value))
    ensures requestUrl.Some? && Decode(requestUrl.value).None? ==>
              (factors == [DecodeErrorFactor] <==> HasRawSuspicion(ToLowerAscii(requestUrl.value))) &&
              (factors == [] <==> !HasRawSuspicion(ToLowerAscii(requestUrl.value)))
    ensures |factors| <= 3 && InAnalysisOrder(factors)
    ensures forall f :: f in factors ==> f.weight >= 50 && Rank(f) >= 1
  {
    match requestUrl
    case None => []
    case Some(url) =>
      match Decode(url)
      case Some(decoded) => DecodedHeuristics(ToLowerAscii(decoded))
      case None => if HasRawSuspicion(ToLowerAscii(url)) then [DecodeErrorFactor] else []
  }

  /**
   * All the factors calculateRisk gathers for a context and a history: at
   * most one behavioural factor, followed by the content factors.
   */
  function HybridFactors(context: SecurityContext, history: seq<UserBehavior>): (factors: seq<RiskFactor>)
    ensures |ContentFactors(context.requestUrl)| <= |factors| <= |ContentFactors(context.requestUrl)| + 1
  {
    MlFactors(PredictRisk(context, history)) + ContentFactors(context.requestUrl)
  }

  // ---------------------------------------------------------------------
  // Aggregation
  // ---------------------------------------------------------------------

  /** The sum of the weights (DoubleStream.sum, in hundredths). */
  function SumWeights(factors: seq<RiskFactor>): (total: int)
    ensures (forall f :: f in factors ==> 0 <= f.weight) ==> 0 <= total
    ensures (forall f :: f in factors ==> f.weight <= MaxRiskScore) ==> total <= |factors| * MaxRiskScore
  {
    if factors == [] then 0 else factors[0].weight + SumWeights(factors[1..])
  }

  lemma {:induction false} SumWeightsAppend(a: seq<RiskFactor>, b: seq<RiskFactor>)
    ensures SumWeights(a + b) == SumWeights(a) + SumWeights(b)
  {
    if a != [] {
      assert (a + b)[0] == a[0];
      assert (a + b)[1..] == a[1..] + b;
      SumWeightsAppend(a[1..], b);
    } else {
      assert a + b == b;
    }
  }

  lemma {:induction false} SumWeightsBounds(factors: seq<RiskFactor>)
    requires forall f :: f in factors ==> f.weight >= 0
    ensures SumWeights(factors) >= 0
    ensures factors != [] ==> SumWeights(factors) >= factors[0].weight
  {
    if factors != [] {
      assert forall f :: f in factors[1..] ==> f in factors;
      SumWeightsBounds(factors[1..]);
    }
  }

  /** `k` is the first position of a maximal weight. */
  predicate IsFirstMax(factors: seq<RiskFactor>, k: int)
  {
    0 <= k < |factors|
    && (forall i :: 0 <= i < |factors| ==> factors[i].weight <= factors[k].weight)
    && (forall i :: 0 <= i < k ==> factors[i].weight < factors[k].weight)
  }

  /**
   * Stream.max with Double.compare, as the left-to-right reduction it is:
   * the candidate so far is kept unless a later factor is strictly heavier.
   */
  function MaxFrom(factors: seq<RiskFactor>, best: nat, i: nat): (k: nat)
    requires best < i <= |factors|
    requires IsFirstMax(factors[..i], best)
    ensures IsFirstMax(factors, k)
    decreases |factors| - i
  {
    if i == |factors| then
      assert factors[..i] == factors;
      best
    else
      var next := if factors[best].weight >= factors[i].weight then best else i;
      assert factors[..i + 1][..i] == factors[..i];
      MaxFrom(factors, next, i + 1)
  }

  function FirstMaxIndex(factors: seq<RiskFactor>): (k: nat)
    requires factors != []
    ensures IsFirstMax(factors, k)
  {
    MaxFrom(factors, 0, 1)
  }

  /** The primary reason: the detail of the first heaviest factor. */
  function PrimaryReason(factors: seq<RiskFactor>): (reason: string)
    ensures factors == [] ==> reason == FallbackReason
    ensures factors != [] ==> exists k :: IsFirstMax(factors, k) && reason == factors[k].detail
  {
    if factors == [] then FallbackReason else factors[FirstMaxIndex(factors)].detail
  }

  /** The first heaviest factor is unique, so the reason names one definite factor. */
  lemma FirstMaxUnique(factors: seq<RiskFactor>, k: int, m: int)
    requires IsFirstMax(factors, k) && IsFirstMax(factors, m)
    ensures k == m
  {
    assert factors[k].weight <= factors[m].weight && factors[m].weight <= factors[k].weight;
  }

  /** Equal weights are resolved in favour of the earlier factor. */
  lemma EarlierFactorWinsTies(a: RiskFactor, b: RiskFactor)
    requires a.weight == b.weight
    ensures PrimaryReason([a, b]) == a.detail
  {
    var k := FirstMaxIndex([a, b]);
    assert k == 0;
  }

  /**
   * The risk for gathered factors: low context with none, otherwise the
   * sum capped at 1.0, the first heaviest factor's detail, and the factors.
   */
  function Aggregate(factors: seq<RiskFactor>): (r: RiskScore)
    ensures factors == [] ==> r == Low()
    ensures factors != [] ==> r.factors == factors
    ensures factors != [] ==> r.score == if SumWeights(factors) > MaxRiskScore then MaxRiskScore else SumWeights(factors)
    ensures factors != [] ==> exists k :: IsFirstMax(factors, k) && r.reason == factors[k].detail
  {
    if factors == [] then Low()
    else
      var total := SumWeights(factors);
      RiskScore(if total > MaxRiskScore then MaxRiskScore else total, PrimaryReason(factors), factors)
  }

  /** With non-negative weights the score stays in [0.0, 1.0] and is at least the first factor's weight, up to the cap. */
  lemma AggregateInRange(factors: seq<RiskFactor>)
    requires forall f :: f in factors ==> f.weight >= 0
    ensures 0 <= Aggregate(factors).score <= MaxRiskScore
    ensures factors != [] ==> Aggregate(factors).score >= Min(factors[0].weight, MaxRiskScore)
  {
    SumWeightsBounds(factors);
  }

  /**
   * The hybrid engine's answer for a context, given the history it reads:
   * the low context when nothing fired, otherwise a score in [0.0, 1.0]
   * that carries the gathered factors.
   */
  function HybridRisk(context: SecurityContext, history: seq<UserBehavior>): (risk: RiskScore)
    ensures HybridFactors(context, history) == [] ==> risk == Low()
    ensures HybridFactors(context, history) != [] ==> risk.factors == HybridFactors(context, history)
    ensures 0 <= risk.score <= MaxRiskScore
  {
    var factors := HybridFactors(context, history);
    ContentWeights(context.requestUrl);
    AggregateInRange(factors);
    Aggregate(factors)
  }

  // ---------------------------------------------------------------------
  // Properties of the hybrid score
  // ---------------------------------------------------------------------

  /** Content factors weigh 0.5, 0.6 or 0.9. */
  lemma ContentWeights(requestUrl: Option<string>)
    ensures forall f :: f in ContentFactors(requestUrl) ==> f.weight in {50, 60, 90}
  {
    forall f | f in ContentFactors(requestUrl) ensures f.weight in {50, 60, 90} {
      match requestUrl
      case None =>
      case Some(url) =>
    }
  }

  /** Two ordered runs whose ranks do not overlap concatenate to an ordered run. */
  lemma {:induction false} OrderedConcat(a: seq<RiskFactor>, b: seq<RiskFactor>)
    requires InAnalysisOrder(a) && InAnalysisOrder(b)
    requires forall i, j :: 0 <= i < |a| && 0 <= j < |b| ==> Rank(a[i]) < Rank(b[j])
    ensures InAnalysisOrder(a + b)
  {
    var fs := a + b;
    forall i, j | 0 <= i < j < |fs| ensures Rank(fs[i]) < Rank(fs[j]) {
      if j < |a| {
        assert fs[i] == a[i] && fs[j] == a[j];
      } else if i < |a| {
        assert fs[i] == a[i] && fs[j] == b[j - |a|];
      } else {
        assert fs[i] == b[i - |a|] && fs[j] == b[j - |a|];
      }
    }
  }

  /**
   * The returned factors are the gathered ones: at most the mild behavioural
   * factor followed by the content factors, at most four, in analysis order.
   */
  lemma HybridFactorsShape(context: SecurityContext, history: seq<UserBehavior>)
    ensures var fs := HybridFactors(context, history);
      && |fs| <= 4 && InAnalysisOrder(fs)
      && MlHighFactor !in fs
      && (forall f :: f in fs ==> f.weight in {20, 50, 60, 90})
      && (fs != [] ==> HybridRisk(context, history).factors == fs)
  {
    MlBanding(context, history);
    var ml := MlFactors(PredictRisk(context, history));
    var content := ContentFactors(context.requestUrl);
    ContentWeights(context.requestUrl);
    assert forall i :: 0 <= i < |ml| ==> ml[i] == MlMildFactor;
    OrderedConcat(ml, content);
  }

  /**
   * The gathered factors end with the content factors, preceded at most by
   * the mild behavioural factor.
   */
  lemma HybridFactorsEndWithContent(context: SecurityContext, history: seq<UserBehavior>)
    ensures var content := ContentFactors(context.requestUrl);
      var fs := HybridFactors(context, history);
      fs[|fs| - |content|..] == content && (|fs| > |content| ==> fs[..1] == [MlMildFactor])
  {
    MlBanding(context, history);
  }

  /** The hybrid score lies in [0.1, 1.0]. */
  lemma HybridScoreInRange(context: SecurityContext, history: seq<UserBehavior>)
    ensures LowScore <= HybridRisk(context, history).score <= MaxRiskScore
  {
    HybridFactorsShape(context, history);
    var fs := HybridFactors(context, history);
    AggregateInRange(fs);
  }

  /**
   * A hybrid score reaches the 0.5 threshold exactly when some content
   * heuristic fired: the behavioural factor alone weighs only 0.2.
   */
  lemma ThresholdNeedsContent(context: SecurityContext, history: seq<UserBehavior>)
    ensures HybridRisk(context, history).score >= 50 <==> ContentFactors(context.requestUrl) != []
    ensures HybridRisk(context, history).score >= 50 ==> HybridRisk(context, history).factors != []
  {
    MlBanding(context, history);
    var ml := MlFactors(PredictRisk(context, history));
    var content := ContentFactors(context.requestUrl);
    var fs := ml + content;
    SumWeightsAppend(ml, content);
    assert SumWeights(ml) <= 20;
    assert SumWeights(ml) >= 0;
    if content != [] {
      SumWeightsBounds(content);
    } else {
      assert fs == ml;
    }
  }

  /** Without history the prediction is 0.3, which adds no factor: only content counts. */
  lemma WithoutHistoryOnlyContent(context: SecurityContext)
    ensures HybridFactors(context, []) == ContentFactors(context.requestUrl)
  {
    assert PredictRisk(context, []) == ColdStartRisk;
    assert [] + ContentFactors(context.requestUrl) == ContentFactors(context.requestUrl);
  }

  /** One factor alone: its weight (capped) and its detail. */
  lemma SingleFactorRisk(f: RiskFactor)
    ensures Aggregate([f]) == RiskScore(Min(f.weight, MaxRiskScore), f.detail, [f])
  {
    var k := FirstMaxIndex([f]);
    assert k == 0;
    assert [f][1..] == [];
    assert SumWeights([f]) == f.weight;
  }

  /** Two factors: the capped sum, and the second one's detail only when it is strictly heavier. */
  lemma PairRisk(f: RiskFactor, g: RiskFactor)
    ensures Aggregate([f, g]) ==
              RiskScore(Min(f.weight + g.weight, MaxRiskScore), if g.weight > f.weight then g.detail else f.detail, [f, g])
  {
    var k := FirstMaxIndex([f, g]);
    assert k == (if g.weight > f.weight then 1 else 0);
    assert [f, g][1..] == [g] && [g][1..] == [];
    assert SumWeights([g]) == g.weight;
    assert SumWeights([f, g]) == f.weight + g.weight;
  }

  /** A missing URL leaves only the behavioural factor. */
  lemma NoUrlNoContentFactors(userId: string, ip: string, history: seq<UserBehavior>)
    ensures HybridFactors(SecurityContext(userId, None, ip), history) ==
              if history != [] && !IsKnownIp(ip, history) then [MlMildFactor] else []
  {
    MlBanding(SecurityContext(userId, None, ip), history);
  }

  /** Reordering the history does not change the hybrid score. */
  lemma HybridPermutationInvariant(context: SecurityContext, h1: seq<UserBehavior>, h2: seq<UserBehavior>)
    requires multiset(h1) == multiset(h2)
    ensures HybridRisk(context, h1) == HybridRisk(context, h2)
  {
    PredictionPermutationInvariant(context, h1, h2);
  }

  // ---------------------------------------------------------------------
  // The engine
  // ---------------------------------------------------------------------

  /** BehavioralScoringEngine over a behaviour store. */
  class BehavioralScoringEngine {
    const behaviorRepository: BehaviorRepositoryImpl

    constructor (behaviorRepository: BehaviorRepositoryImpl)
      ensures this.behaviorRepository == behaviorRepository
    {
      this.behaviorRepository := behaviorRepository;
    }

    /** The history the behavioural analysis reads for a user. */
    function RecentHistory(userId: string): (history: seq<UserBehavior>)
      reads behaviorRepository.jpaRepository
      ensures |history| <= HistoryLimit
      ensures forall i :: 0 <= i < |history| ==> history[i].userId == userId
    {
      behaviorRepository.FindRecentByUserId(userId, HistoryLimit)
    }

    /** analyzeMachineLearning: appends the behavioural factor, if any. */
    method AnalyzeMachineLearning(context: SecurityContext, factors: seq<RiskFactor>) returns (extended: seq<RiskFactor>)
      ensures extended == factors + MlFactors(PredictRisk(context, RecentHistory(context.userId)))
    {
      var recentHistory := behaviorRepository.FindRecentByUserId(context.userId, HistoryLimit);
      var mlPrediction := PredictRisk(context, recentHistory);
      extended := factors;
      if mlPrediction > MlHighThreshold {
        extended := extended + [MlHighFactor];
      } else if mlPrediction > MlMildThreshold {
        extended := extended + [MlMildFactor];
      }
    }

    /** analyzeContent: appends the content factors; a decoding failure switches to the raw text. */
    method AnalyzeContent(context: SecurityContext, factors: seq<RiskFactor>) returns (extended: seq<RiskFactor>)
      ensures extended == factors + ContentFactors(context.requestUrl)
    {
      extended := factors;
      if context.requestUrl.None? {
        return;
      }
      var decoded := Decode(context.requestUrl.value);
      if decoded.Some? {
        var decodedContent := ToLowerAscii(decoded.value);
        var sql, xss, critical := HasSqlMarker(decodedContent), HasXssMarker(decodedContent), HasCriticalMarker(decodedContent);
        ghost var sqlPart := if sql then [SqlFactor] else [];
        ghost var xssPart := if xss then [XssFactor] else [];
        ghost var criticalPart := if critical then [CriticalFactor] else [];
        assert ContentFactors(context.requestUrl) == sqlPart + xssPart + criticalPart;
        if sql {
          extended := extended + [SqlFactor];
        }
        assert extended == factors + sqlPart;
        if xss {
          extended := extended + [XssFactor];
        }
        assert extended == factors + sqlPart + xssPart;
        if critical {
          extended := extended + [CriticalFactor];
        }
        assert extended == factors + (sqlPart + xssPart + criticalPart);
      } else {
        var rawContent := ToLowerAscii(context.requestUrl.value);
        if HasRawSuspicion(rawContent) {
          extended := extended + [DecodeErrorFactor];
        }
      }
    }

    /** calculateRisk: gathers the factors in place, then sums, caps and picks the reason. */
    method CalculateRisk(context: SecurityContext) returns (risk: RiskScore)
      ensures risk == HybridRisk(context, RecentHistory(context.userId))
      ensures LowScore <= risk.score <= MaxRiskScore
    {
      HybridScoreInRange(context, RecentHistory(context.userId));
      ghost var ml := MlFactors(PredictRisk(context, RecentHistory(context.userId)));
      ghost var content := ContentFactors(context.requestUrl);
      var factors: seq<RiskFactor> := [];
      factors := AnalyzeMachineLearning(context, factors);
      assert factors == ml by { assert [] + ml == ml; }
      factors := AnalyzeContent(context, factors);
      assert factors == HybridFactors(context, RecentHistory(context.userId)) == ml + content;
      var totalScore := SumWeights(factors);
      if factors == [] {
        return Low();
      }
      if totalScore > MaxRiskScore {
        totalScore := MaxRiskScore;
      }
      var primaryReason := PrimaryReason(factors);
      risk := RiskScore(totalScore, primaryReason, factors);
    }
  }
}
