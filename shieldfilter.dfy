/**
 * AIShieldFilter.doFilterInternal: the decision gate run once per request.
 * It builds the security context from the request, asks the configured
 * strategy for a risk score, rejects the request with 403 when the score
 * reaches 0.5, records one history entry, and forwards the request down the
 * chain only when it was not rejected.
 *
 * The servlet objects are reduced to what the filter touches: the request's
 * remote address, URI, query string and remote user; the response's status,
 * content type and body; and the chain's list of forwarded requests. The
 * filter also keeps the trace of the side effects it performed, in order.
 */
module ShieldFilter {
  import opened RiskModel
  import opened Strings
  import SimpleRules
  import opened HybridScoring
  import opened BehaviorService
  import opened JpaPersistence

  /** The parts of an HttpServletRequest that the filter reads; `None` stands for `null`. */
  datatype HttpRequest = HttpRequest(
    remoteAddr: string,
    requestUri: string,
    queryString: Option<string>,
    remoteUser: Option<string>)

  const AnonymousUser: string := "ANONYMOUS"
  const AccessGranted: string := "ACCESS_GRANTED"
  const AccessDenied: string := "ACCESS_DENIED"
  /** RISK_THRESHOLD, 0.5. */
  const RiskThreshold: int := 50
  /** HttpServletResponse.SC_FORBIDDEN. */
  const Forbidden: int := 403
  const BlockedContentType: string := "text/plain;charset=UTF-8"
  const BlockedMessage: string := "Accès bloqué par Spring AI Shield : Risque de sécurité détecté."

  /** The URL the filter analyses: the URI, followed by `?` and the query string when there is one. */
  function RequestUrl(request: HttpRequest): (url: string)
    ensures request.queryString.None? ==> url == request.requestUri
    ensures request.queryString.Some? ==>
              |url| == |request.requestUri| + 1 + |request.queryString.value| &&
              url[..|request.requestUri|] == request.requestUri &&
              url[|request.requestUri|] == '?' &&
              url[|request.requestUri| + 1..] == request.queryString.value
  {
    match request.queryString
    case None => request.requestUri
    case Some(query) => request.requestUri + "?" + query
  }

  /** The authenticated user, or "ANONYMOUS" when the request has none. */
  function UserIdOf(request: HttpRequest): (userId: string)
    ensures request.remoteUser.Some? ==> userId == request.remoteUser.value
    ensures request.remoteUser.None? ==> userId == AnonymousUser
  {
    match request.remoteUser
    case None => AnonymousUser
    case Some(user) => user
  }

  /** The context handed to the strategy, in the record's order (user, URL, IP). */
  function BuildContext(request: HttpRequest): (context: SecurityContext)
    ensures context.userId == UserIdOf(request)
    ensures context.requestUrl == Some(RequestUrl(request))
    ensures context.ipAddress == request.remoteAddr
  {
    SecurityContext(UserIdOf(request), Some(RequestUrl(request)), request.remoteAddr)
  }

  /** Position of the first `?` of a URL, or its length when it has none. */
  function QueryStart(url: string): (k: nat)
    ensures k <= |url|
    ensures k < |url| ==> url[k] == '?'
    ensures forall i :: 0 <= i < k ==> url[i] != '?'
  {
    if url == [] || url[0] == '?' then 0 else 1 + QueryStart(url[1..])
  }

  /** Splits a URL at its first `?` into the URI and the query string, if any. */
  function SplitRequestUrl(url: string): (string, Option<string>)
  {
    var k := QueryStart(url);
    if k == |url| then (url, None) else (url[..k], Some(url[k + 1..]))
  }

  /** Splitting undoes RequestUrl whenever the URI itself holds no `?`. */
  lemma SplitRequestUrlInverse(request: HttpRequest)
    requires '?' !in request.requestUri
    ensures SplitRequestUrl(RequestUrl(request)) == (request.requestUri, request.queryString)
  {
    var url := RequestUrl(request);
    var n := |request.requestUri|;
    var k := QueryStart(url);
    forall i | 0 <= i < n ensures url[i] != '?' {
      assert url[i] == request.requestUri[i];
    }
    assert k >= n;
    if request.queryString.Some? {
      assert url[n] == '?';
    }
  }

  /** The blocking decision: the threshold itself blocks. */
  predicate IsBlocked(score: int)
  {
    score >= RiskThreshold
  }

  /** Blocking is upward closed in the score and starts exactly at 0.5. */
  lemma BlockingIsUpwardClosed(lower: int, higher: int)
    requires lower <= higher
    ensures IsBlocked(lower) ==> IsBlocked(higher)
    ensures IsBlocked(RiskThreshold) && !IsBlocked(RiskThreshold - 1)
    ensures IsBlocked(MaxRiskScore) && !IsBlocked(LowScore)
  {
  }

  /** The outcome label the filter writes into the record. */
  function EventTypeFor(blocked: bool): (eventType: string)
    ensures blocked <==> eventType == AccessDenied
    ensures !blocked <==> eventType == AccessGranted
  {
    if blocked then AccessDenied else AccessGranted
  }

  /** The record saved for a request: its user, IP, outcome, URL and risk, with no id yet. */
  function RecordFor(context: SecurityContext, risk: RiskScore, now: int): (record: UserBehavior)
    requires context.requestUrl.Some?
    ensures record.id.None? && record.timestamp == now
    ensures record.userId == context.userId && record.ipAddress == context.ipAddress
    ensures record.requestUrl == context.requestUrl.value && record.riskScore == risk
    ensures record.eventType == EventTypeFor(IsBlocked(risk.score))
  {
    NewBehavior(context.userId, context.ipAddress, EventTypeFor(IsBlocked(risk.score)),
                context.requestUrl.value, risk, now)
  }

  /** The row the store holds for a request once it is saved under identity `id`. */
  function StoredRow(request: HttpRequest, risk: RiskScore, now: int, id: nat): UserBehaviorEntity
  {
    ToEntity(RecordFor(BuildContext(request), risk, now), now).(id := Some(id))
  }

  // ---------------------------------------------------------------------
  // The configured strategy
  // ---------------------------------------------------------------------

  /** The RiskScoringService implementations: the two-rule baseline and the hybrid engine. */
  datatype RiskScoringService =
    | SimpleRuleEngine
    | BehavioralEngine(engine: BehavioralScoringEngine)

  /** The strategy the auto-configuration installs when no other is defined. */
  const DefaultRiskScoringService: RiskScoringService := SimpleRuleEngine

  /** The objects a strategy's score depends on: the hybrid engine reads its history store. */
  function Footprint(service: RiskScoringService): set<object>
  {
    match service
    case SimpleRuleEngine => {}
    case BehavioralEngine(engine) => {engine.behaviorRepository.jpaRepository}
  }

  /** The score a strategy gives a context, in the current state of its history store. */
  function ServiceRisk(service: RiskScoringService, context: SecurityContext): (risk: RiskScore)
    requires service.SimpleRuleEngine? ==> SimpleRules.CanScore(context)
    reads Footprint(service)
    ensures 0 <= risk.score <= MaxRiskScore
    ensures service.SimpleRuleEngine? ==> risk == SimpleRules.CalculateRisk(context)
    ensures service.BehavioralEngine? ==>
              risk == HybridRisk(context, service.engine.RecentHistory(context.userId))
  {
    match service
    case SimpleRuleEngine =>
      SimpleRules.ScoreInRange(context);
      SimpleRules.CalculateRisk(context)
    case BehavioralEngine(engine) =>
      HybridScoreInRange(context, engine.RecentHistory(context.userId));
      HybridRisk(context, engine.RecentHistory(context.userId))
  }

  /** riskScoringService.calculateRisk, dispatched on the implementation. */
  method CalculateRisk(service: RiskScoringService, context: SecurityContext) returns (risk: RiskScore)
    requires service.SimpleRuleEngine? ==> SimpleRules.CanScore(context)
    ensures risk == old(ServiceRisk(service, context))
  {
    match service
    case SimpleRuleEngine =>
      risk := SimpleRules.CalculateRisk(context);
    case BehavioralEngine(engine) =>
      risk := engine.CalculateRisk(context);
  }

  /** With the default strategy every request from the loopback address is blocked, whatever its URL and user. */
  lemma DefaultStrategyBlocksLoopback(request: HttpRequest)
    requires request.remoteAddr == SimpleRules.LoopbackIp
    ensures IsBlocked(ServiceRisk(DefaultRiskScoringService, BuildContext(request)).score)
    ensures RecordFor(BuildContext(request), ServiceRisk(DefaultRiskScoringService, BuildContext(request)), 0).eventType == AccessDenied
  {
  }

  /**
   * The baseline strategy never produces factors, so the label it stores is
   * the outcome label itself: "ACCESS_DENIED" exactly when blocked.
   */
  lemma BaselineStoresOutcomeLabel(context: SecurityContext, now: int)
    requires context.requestUrl.Some?
    ensures var risk := SimpleRules.CalculateRisk(context);
      StoredEventType(RecordFor(context, risk, now)) == EventTypeFor(IsBlocked(risk.score))
  {
  }

  /**
   * Under the hybrid engine a denied request always carries factors, so its
   * stored label is the factor summary and never "ACCESS_DENIED"; an
   * admitted request without factors keeps "ACCESS_GRANTED".
   */
  lemma HybridDeniedLabelIsSummary(context: SecurityContext, history: seq<UserBehavior>, now: int)
    requires context.requestUrl.Some?
    ensures var risk := HybridRisk(context, history);
      IsBlocked(risk.score) ==>
        risk.factors != [] &&
        StoredEventType(RecordFor(context, risk, now)) == FactorSummary(risk.factors) &&
        StoredEventType(RecordFor(context, risk, now)) != AccessDenied
    ensures var risk := HybridRisk(context, history);
      risk.factors == [] ==> StoredEventType(RecordFor(context, risk, now)) == AccessGranted
  {
    var risk := HybridRisk(context, history);
    ThresholdNeedsContent(context, history);
    HybridScoreInRange(context, history);
    StoredLabel(context, risk, now);
    if risk.factors == [] {
      assert risk.score == LowScore by {
        if HybridFactors(context, history) != [] {
          HybridFactorsShape(context, history);
        }
      }
    }
  }

  /** The label stored for a decided request: the outcome without factors, otherwise the factor summary, which is never an outcome label. */
  lemma StoredLabel(context: SecurityContext, risk: RiskScore, now: int)
    requires context.requestUrl.Some?
    ensures risk.factors == [] ==> StoredEventType(RecordFor(context, risk, now)) == EventTypeFor(IsBlocked(risk.score))
    ensures risk.factors != [] ==>
              StoredEventType(RecordFor(context, risk, now)) == FactorSummary(risk.factors) &&
              StoredEventType(RecordFor(context, risk, now)) != AccessDenied &&
              StoredEventType(RecordFor(context, risk, now)) != AccessGranted
  {
    if risk.factors != [] {
      assert ':' !in AccessDenied && ':' !in AccessGranted;
      SummaryIsNotOutcomeLabel(risk.factors, AccessDenied);
      SummaryIsNotOutcomeLabel(risk.factors, AccessGranted);
    }
  }

  // ---------------------------------------------------------------------
  // Side effects and their order
  // ---------------------------------------------------------------------

  /** One observable action of the filter. */
  datatype Effect =
    | Scored(context: SecurityContext, risk: RiskScore)
    | Rejected(status: int, body: string)
    | Saved(record: UserBehavior)
    | Forwarded(request: HttpRequest)

  /**
   * The actions taken for one request, in order: scoring, the 403 answer
   * when blocked, the save, and the forward when not blocked.
   */
  function RequestEffects(request: HttpRequest, risk: RiskScore, now: int): seq<Effect>
  {
    var context := BuildContext(request);
    var blocked := IsBlocked(risk.score);
    [Scored(context, risk)]
    + (if blocked then [Rejected(Forbidden, BlockedMessage)] else [])
    + [Saved(RecordFor(context, risk, now))]
    + (if blocked then [] else [Forwarded(request)])
  }

  function CountSaved(effects: seq<Effect>): nat
  {
    if effects == [] then 0 else (if effects[0].Saved? then 1 else 0) + CountSaved(effects[1..])
  }

  lemma {:induction false} CountSavedAppend(a: seq<Effect>, b: seq<Effect>)
    ensures CountSaved(a + b) == CountSaved(a) + CountSaved(b)
    decreases |a|
  {
    if a == [] {
      assert a + b == b;
    } else {
      assert (a + b)[0] == a[0];
      assert (a + b)[1..] == a[1..] + b;
      CountSavedAppend(a[1..], b);
    }
  }

  lemma CountSavedOne(e: Effect)
    ensures CountSaved([e]) == if e.Saved? then 1 else 0
  {
    assert [e][1..] == [];
  }

  /** Every request, blocked or not, is recorded exactly once, with this request's data. */
  lemma SavedExactlyOnce(request: HttpRequest, risk: RiskScore, now: int)
    ensures CountSaved(RequestEffects(request, risk, now)) == 1
    ensures Saved(RecordFor(BuildContext(request), risk, now)) in RequestEffects(request, risk, now)
  {
    var context := BuildContext(request);
    var blocked := IsBlocked(risk.score);
    var reject: seq<Effect> := if blocked then [Rejected(Forbidden, BlockedMessage)] else [];
    var forward: seq<Effect> := if blocked then [] else [Forwarded(request)];
    var save := Saved(RecordFor(context, risk, now));
    CountSavedOne(Scored(context, risk));
    CountSavedOne(save);
    if blocked { CountSavedOne(Rejected(Forbidden, BlockedMessage)); } else { assert CountSaved(reject) == 0; }
    if blocked { assert CountSaved(forward) == 0; } else { CountSavedOne(Forwarded(request)); }
    CountSavedAppend([Scored(context, risk)], reject);
    CountSavedAppend([Scored(context, risk)] + reject, [save]);
    CountSavedAppend([Scored(context, risk)] + reject + [save], forward);
    assert RequestEffects(request, risk, now)[1 + |reject|] == save;
  }

  /** The request goes down the chain exactly when it is not blocked; it is answered 403 exactly when it is. */
  lemma ForwardIffAllowed(request: HttpRequest, risk: RiskScore, now: int)
    ensures Forwarded(request) in RequestEffects(request, risk, now) <==> !IsBlocked(risk.score)
    ensures Rejected(Forbidden, BlockedMessage) in RequestEffects(request, risk, now) <==> IsBlocked(risk.score)
    ensures forall e :: e in RequestEffects(request, risk, now) && e.Forwarded? ==> e.request == request
  {
    var effects := RequestEffects(request, risk, now);
    if IsBlocked(risk.score) {
      assert effects[1] == Rejected(Forbidden, BlockedMessage);
    } else {
      assert effects[2] == Forwarded(request);
    }
  }

  /** Scoring comes first, the 403 answer precedes the save, and the save precedes the forward. */
  lemma EffectsInOrder(request: HttpRequest, risk: RiskScore, now: int)
    ensures var effects := RequestEffects(request, risk, now);
      && effects[0] == Scored(BuildContext(request), risk)
      && (forall i, j :: 0 <= i < |effects| && 0 <= j < |effects| && effects[i].Rejected? && effects[j].Saved? ==> i < j)
      && (forall i, j :: 0 <= i < |effects| && 0 <= j < |effects| && effects[i].Saved? && effects[j].Forwarded? ==> i < j)
  {
  }

  // ---------------------------------------------------------------------
  // The servlet objects and the filter
  // ---------------------------------------------------------------------

  /** The parts of HttpServletResponse the filter writes. */
  class HttpResponse {
    var status: int
    var contentType: string
    var body: string

    constructor ()
      ensures status == 200 && contentType == "" && body == ""
    {
      status := 200;
      contentType := "";
      body := "";
    }
  }

  /** The rest of the filter chain, reduced to the requests passed on to it. */
  class FilterChain {
    var forwarded: seq<HttpRequest>

    constructor ()
      ensures forwarded == []
    {
      forwarded := [];
    }

    method DoFilter(request: HttpRequest)
      modifies this
      ensures forwarded == old(forwarded) + [request]
    {
      forwarded := forwarded + [request];
    }
  }

  class AIShieldFilter {
    const riskScoringService: RiskScoringService
    const behaviorRepository: BehaviorRepositoryImpl
    /** The side effects performed so far, in order. */
    var effects: seq<Effect>

    ghost predicate Valid()
      reads behaviorRepository.jpaRepository
    {
      behaviorRepository.jpaRepository.Valid()
    }

    constructor (riskScoringService: RiskScoringService, behaviorRepository: BehaviorRepositoryImpl)
      ensures this.riskScoringService == riskScoringService
      ensures this.behaviorRepository == behaviorRepository
      ensures effects == []
    {
      this.riskScoringService := riskScoringService;
      this.behaviorRepository := behaviorRepository;
      effects := [];
    }

    /**
     * doFilterInternal. The risk is the strategy's score of the request's
     * context in the state before the call; the request is answered 403
     * exactly when that score reaches the threshold, one record is appended
     * to the store whatever the outcome, and the request is forwarded
     * exactly when it was not blocked.
     */
    method DoFilterInternal(request: HttpRequest, response: HttpResponse, filterChain: FilterChain, now: int)
      requires Valid()
      modifies this, response, filterChain, behaviorRepository.jpaRepository
      ensures Valid()
      ensures effects == old(effects) + RequestEffects(request, old(ServiceRisk(riskScoringService, BuildContext(request))), now)
      ensures behaviorRepository.jpaRepository.table == old(behaviorRepository.jpaRepository.table) +
                [StoredRow(request, old(ServiceRisk(riskScoringService, BuildContext(request))), now, old(behaviorRepository.jpaRepository.nextId))]
      ensures behaviorRepository.jpaRepository.nextId == old(behaviorRepository.jpaRepository.nextId) + 1
      ensures filterChain.forwarded == old(filterChain.forwarded) +
                (if IsBlocked(old(ServiceRisk(riskScoringService, BuildContext(request))).score) then [] else [request])
      ensures response.status == (if IsBlocked(old(ServiceRisk(riskScoringService, BuildContext(request))).score) then Forbidden else old(response.status))
      ensures response.contentType ==
                (if IsBlocked(old(ServiceRisk(riskScoringService, BuildContext(request))).score) then BlockedContentType else old(response.contentType))
      ensures response.body ==
                (if IsBlocked(old(ServiceRisk(riskScoringService, BuildContext(request))).score) then old(response.body) + BlockedMessage else old(response.body))
    {
      var ipAddress := request.remoteAddr;
      var requestUrl := request.requestUri;
      if request.queryString.Some? {
        requestUrl := requestUrl + "?" + request.queryString.value;
      }
      var userId := if request.remoteUser.Some? then request.remoteUser.value else AnonymousUser;
      var context := SecurityContext(userId, Some(requestUrl), ipAddress);
      assert context == BuildContext(request);

      var risk := CalculateRisk(riskScoringService, context);
      Enforce(request, context, risk, response, filterChain, now);
    }

    /**
     * The second half of doFilterInternal, once the risk is known: the 403
     * answer when the score reaches the threshold, the save of the record,
     * then the forward when the request was not blocked.
     */
    method Enforce(request: HttpRequest, context: SecurityContext, risk: RiskScore,
                   response: HttpResponse, filterChain: FilterChain, now: int)
      requires Valid()
      requires context == BuildContext(request)
      modifies this, response, filterChain, behaviorRepository.jpaRepository
      ensures Valid()
      ensures effects == old(effects) + RequestEffects(request, risk, now)
      ensures behaviorRepository.jpaRepository.table ==
                old(behaviorRepository.jpaRepository.table) + [StoredRow(request, risk, now, old(behaviorRepository.jpaRepository.nextId))]
      ensures behaviorRepository.jpaRepository.nextId == old(behaviorRepository.jpaRepository.nextId) + 1
      ensures filterChain.forwarded == old(filterChain.forwarded) + (if IsBlocked(risk.score) then [] else [request])
      ensures response.status == (if IsBlocked(risk.score) then Forbidden else old(response.status))
      ensures response.contentType == (if IsBlocked(risk.score) then BlockedContentType else old(response.contentType))
      ensures response.body == (if IsBlocked(risk.score) then old(response.body) + BlockedMessage else old(response.body))
    {
      effects := effects + [Scored(context, risk)];
      var eventType := AccessGranted;
      var isBlocked := risk.score >= RiskThreshold;
      if isBlocked {
        eventType := AccessDenied;
        response.status := Forbidden;
        response.contentType := BlockedContentType;
        response.body := response.body + BlockedMessage;
        effects := effects + [Rejected(Forbidden, BlockedMessage)];
      }

      var behavior := NewBehavior(context.userId, context.ipAddress, eventType, context.requestUrl.value, risk, now);
      assert behavior == RecordFor(context, risk, now);
      var saved := behaviorRepository.Save(behavior, now);
      effects := effects + [Saved(behavior)];

      if !isBlocked {
        filterChain.DoFilter(request);
        effects := effects + [Forwarded(request)];
      }
    }
  }
}
