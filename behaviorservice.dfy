/**
 * BehaviorRepositoryImpl: the history store seen by the core. Saving turns a
 * UserBehavior into a table row, replacing the outcome label by a summary of
 * the risk factors whenever there are factors; reading maps rows back, with
 * a fixed reason and no factors.
 */
module BehaviorService {
  import opened RiskModel
  import opened Strings
  import opened JpaPersistence

  /** The reason carried by every record read back from the table. */
  const StoredReason: string := "Raison inconnue (Récupéré de BDD)"
  const FactorSeparator: string := "; "

  /**
   * The fraction digits of Double.toString for a two-decimal value: `0` for
   * a whole value, otherwise the tenths digit and, when it is not zero, the
   * hundredths digit.
   */
  function FractionText(frac: nat): (digits: string)
    requires frac < 100
    ensures frac == 0 ==> digits == "0"
    ensures frac != 0 ==> |digits| > 0 && digits[0] == DigitChar(frac / 10)
    ensures frac != 0 && frac % 10 == 0 ==> |digits| == 1
    ensures frac % 10 != 0 ==> |digits| == 2 && digits[1] == DigitChar(frac % 10)
  {
    if frac == 0 then "0"
    else if frac % 10 == 0 then [DigitChar(frac / 10)]
    else [DigitChar(frac / 10), DigitChar(frac % 10)]
  }

  /**
   * Double.toString of the value w/100, for two-decimal values: the integer
   * part, a point, then one or two fraction digits without trailing zero.
   */
  function DecimalText(w: int): (text: string)
    ensures w < 0 ==> |text| > 0 && text[0] == '-'
    ensures 0 <= w ==> var whole := NatToString(w / 100);
      |text| > |whole| + 1 && text[..|whole|] == whole && text[|whole|] == '.'
    ensures 0 <= w && w % 100 == 0 ==> text == NatToString(w / 100) + ".0"
    ensures 0 <= w && w % 100 != 0 ==> var whole := NatToString(w / 100);
      text[|whole| + 1] == DigitChar(w % 100 / 10) &&
      (w % 100 % 10 == 0 ==> |text| == |whole| + 2) &&
      (w % 100 % 10 != 0 ==> |text| == |whole| + 3 && text[|whole| + 2] == DigitChar(w % 100 % 10))
    decreases if w < 0 then 1 else 0
  {
    if w < 0 then "-" + DecimalText(-w)
    else
      var whole := NatToString(w / 100);
      var digits := FractionText(w % 100);
      whole + "." + digits
  }

  /** The texts of the weights the engines produce. */
  lemma DecimalTextOfWeights()
    ensures DecimalText(20) == "0.2" && DecimalText(50) == "0.5"
    ensures DecimalText(60) == "0.6" && DecimalText(90) == "0.9"
    ensures DecimalText(100) == "1.0"
  {
  }

  /** `name:weight` for one factor. */
  function FactorItem(f: RiskFactor): (item: string)
    ensures |item| > |f.name| && item[|f.name|] == ':'
    ensures item[..|f.name|] == f.name && item[|f.name| + 1..] == DecimalText(f.weight)
  {
    f.name + ":" + DecimalText(f.weight)
  }

  function FactorItems(factors: seq<RiskFactor>): (items: seq<string>)
    ensures |items| == |factors|
    ensures forall i :: 0 <= i < |factors| ==> items[i] == FactorItem(factors[i])
  {
    seq(|factors|, i requires 0 <= i < |factors| => FactorItem(factors[i]))
  }

  /**
   * The factor summary: the items in factor order, joined by "; ". No
   * factor gives the empty text, a single factor its item alone.
   */
  function FactorSummary(factors: seq<RiskFactor>): (summary: string)
    ensures factors == [] ==> summary == ""
    ensures |factors| == 1 ==> summary == FactorItem(factors[0])
  {
    Join(FactorItems(factors), FactorSeparator)
  }

  /** One more factor appends "; " and its item to the summary. */
  lemma SummaryAppend(factors: seq<RiskFactor>, f: RiskFactor)
    requires factors != []
    ensures FactorSummary(factors + [f]) == FactorSummary(factors) + FactorSeparator + FactorItem(f)
  {
    assert FactorItems(factors + [f]) == FactorItems(factors) + [FactorItem(f)];
    JoinAppend(FactorItems(factors), FactorItem(f), FactorSeparator);
  }

  /** The summary is empty exactly when there are no factors; otherwise it begins with the first item. */
  lemma SummaryEmptyIffNoFactors(factors: seq<RiskFactor>)
    ensures FactorSummary(factors) == "" <==> factors == []
    ensures factors != [] ==>
      |FactorSummary(factors)| > |factors[0].name| && FactorSummary(factors)[|factors[0].name|] == ':'
    ensures factors != [] ==> FactorSummary(factors)[..|factors[0].name|] == factors[0].name
  {
    var items := FactorItems(factors);
    JoinEmptyIff(items, FactorSeparator);
    if factors != [] {
      JoinStartsWithFirst(items, FactorSeparator);
      assert FactorSummary(factors)[..|items[0]|] == items[0];
    }
  }

  /** Two factors give their items separated by "; ". */
  lemma SummaryOfTwo(f: RiskFactor, g: RiskFactor)
    ensures FactorSummary([f, g]) == FactorItem(f) + FactorSeparator + FactorItem(g)
  {
    var items := FactorItems([f, g]);
    assert items == [FactorItem(f), FactorItem(g)];
    assert items[1..] == [FactorItem(g)];
    assert Join(items, FactorSeparator) == items[0] + FactorSeparator + Join(items[1..], FactorSeparator);
  }

  /** A label written when there are factors contains ':', so it is never a plain outcome label. */
  lemma SummaryIsNotOutcomeLabel(factors: seq<RiskFactor>, outcome: string)
    requires factors != [] && ':' !in outcome
    ensures FactorSummary(factors) != outcome
  {
    SummaryEmptyIffNoFactors(factors);
  }

  /** The event type column: the outcome label when there are no factors, else the factor summary. */
  function StoredEventType(behavior: UserBehavior): (stored: string)
    ensures behavior.riskScore.factors == [] ==> stored == behavior.eventType
    ensures behavior.riskScore.factors != [] ==> stored == FactorSummary(behavior.riskScore.factors)
  {
    SummaryEmptyIffNoFactors(behavior.riskScore.factors);
    var factorSummary := FactorSummary(behavior.riskScore.factors);
    if factorSummary == "" then behavior.eventType else factorSummary
  }

  /** The row built by save before insertion: no id yet, the clock read `now` as timestamp. */
  function ToEntity(behavior: UserBehavior, now: int): (e: UserBehaviorEntity)
    ensures e.id == None && e.timestamp == now
    ensures e.userId == behavior.userId && e.ipAddress == behavior.ipAddress
    ensures e.requestUrl == behavior.requestUrl && e.riskScore == behavior.riskScore.score
    ensures e.eventType == StoredEventType(behavior)
  {
    UserBehaviorEntity(None, behavior.userId, behavior.ipAddress, StoredEventType(behavior),
                       behavior.requestUrl, behavior.riskScore.score, now)
  }

  /** String.valueOf on the row's Long id, "null" when it has none. */
  function IdText(id: Option<nat>): (text: string)
    ensures id.None? ==> text == "null"
    ensures id.Some? ==> (forall i :: 0 <= i < |text| ==> IsDigit(text[i])) && ParseNat(text) == id.value
  {
    match id
    case None => "null"
    case Some(n) => ParseNatToString(n); NatToString(n)
  }

  /** mapEntityToCore. */
  function MapEntityToCore(e: UserBehaviorEntity): (b: UserBehavior)
    ensures b.userId == e.userId && b.ipAddress == e.ipAddress && b.eventType == e.eventType
    ensures b.requestUrl == e.requestUrl && b.timestamp == e.timestamp
    ensures b.riskScore.score == e.riskScore
    ensures b.riskScore.reason == StoredReason && b.riskScore.factors == []
    ensures b.id == Some(IdText(e.id))
  {
    UserBehavior(Some(IdText(e.id)), e.userId, e.ipAddress, e.eventType, e.requestUrl,
                 WithoutFactors(e.riskScore, StoredReason), e.timestamp)
  }

  /** The rows mapped one by one with mapEntityToCore. */
  function MapRows(rows: seq<UserBehaviorEntity>): (history: seq<UserBehavior>)
    ensures |history| == |rows| && forall i :: 0 <= i < |rows| ==> history[i] == MapEntityToCore(rows[i])
  {
    seq(|rows|, i requires 0 <= i < |rows| => MapEntityToCore(rows[i]))
  }

  /** Mapping a query answer keeps its bound, its user and its order, and drops all factors. */
  lemma MappedAnswer(table: seq<UserBehaviorEntity>, userId: string, limit: nat, rows: seq<UserBehaviorEntity>)
    requires IsRecentAnswer(table, userId, limit, rows)
    ensures var history := MapRows(rows);
      && |history| <= limit
      && (forall i :: 0 <= i < |history| ==> history[i].userId == userId && history[i].riskScore.factors == [])
      && (forall i, j :: 0 <= i < j < |history| ==> history[i].timestamp >= history[j].timestamp)
  {
  }

  /**
   * What survives a save and a read back: user, IP, URL and score are kept,
   * the stored label replaces the outcome, the id is the decimal text of the
   * assigned id, and reason and factors are lost.
   */
  lemma {:induction false} SaveRoundTrip(behavior: UserBehavior, now: int, id: nat)
    ensures var back := MapEntityToCore(ToEntity(behavior, now).(id := Some(id)));
      && back.userId == behavior.userId && back.ipAddress == behavior.ipAddress
      && back.requestUrl == behavior.requestUrl && back.riskScore.score == behavior.riskScore.score
      && back.eventType == StoredEventType(behavior) && back.timestamp == now
      && back.id.Some? && (forall i :: 0 <= i < |back.id.value| ==> IsDigit(back.id.value[i]))
      && ParseNat(back.id.value) == id
      && back.riskScore.factors == [] && back.riskScore.reason == StoredReason
      && (behavior.riskScore.factors != [] ==> back != behavior)
  {
    ParseNatToString(id);
  }

  /**
   * A record saved at a time no earlier than any stored row is the first
   * record read back for its user, as it was converted on save.
   */
  lemma SavedRecordReadFirst(table: seq<UserBehaviorEntity>, behavior: UserBehavior, now: int, id: nat, limit: nat)
    requires forall i :: 0 <= i < |table| ==> table[i].timestamp <= now
    requires limit >= 1
    ensures var rows := RecentRows(table + [ToEntity(behavior, now).(id := Some(id))], behavior.userId, limit);
      rows != [] && MapRows(rows)[0] == MapEntityToCore(ToEntity(behavior, now).(id := Some(id)))
  {
    var e := ToEntity(behavior, now).(id := Some(id));
    NewestRowComesFirst(table, e, limit);
  }

  /**
   * The store: BehaviorRepositoryImpl over the JPA repository.
   */
  class BehaviorRepositoryImpl {
    const jpaRepository: JpaBehaviorRepository

    constructor (jpaRepository: JpaBehaviorRepository)
      ensures this.jpaRepository == jpaRepository
    {
      this.jpaRepository := jpaRepository;
    }

    /** save: inserts the converted row and returns it mapped back. */
    method Save(behavior: UserBehavior, now: int) returns (saved: UserBehavior)
      requires jpaRepository.Valid()
      modifies jpaRepository
      ensures jpaRepository.Valid()
      ensures jpaRepository.table ==
                old(jpaRepository.table) + [ToEntity(behavior, now).(id := Some(old(jpaRepository.nextId)))]
      ensures jpaRepository.nextId == old(jpaRepository.nextId) + 1
      ensures saved == MapEntityToCore(ToEntity(behavior, now).(id := Some(old(jpaRepository.nextId))))
      ensures saved.id == Some(NatToString(old(jpaRepository.nextId)))
    {
      var factorSummary := FactorSummary(behavior.riskScore.factors);
      var entity := UserBehaviorEntity(
        None,
        behavior.userId,
        behavior.ipAddress,
        if factorSummary == "" then behavior.eventType else factorSummary,
        behavior.requestUrl,
        behavior.riskScore.score,
        now);
      var savedEntity := jpaRepository.Save(entity);
      saved := MapEntityToCore(savedEntity);
    }

    /**
     * findRecentByUserId: the query's rows mapped one by one, same length
     * and order; so each record is the user's, timestamps do not increase,
     * and no record carries factors.
     */
    function FindRecentByUserId(userId: string, limit: nat): (history: seq<UserBehavior>)
      reads jpaRepository
      ensures var rows := jpaRepository.FindRecentByUserIdNative(userId, limit);
        |history| == |rows| && forall i :: 0 <= i < |rows| ==> history[i] == MapEntityToCore(rows[i])
      ensures |history| <= limit
      ensures forall i :: 0 <= i < |history| ==>
                history[i].userId == userId && history[i].riskScore.factors == []
      ensures forall i, j :: 0 <= i < j < |history| ==> history[i].timestamp >= history[j].timestamp
    {
      var rows := jpaRepository.FindRecentByUserIdNative(userId, limit);
      MappedAnswer(jpaRepository.table, userId, limit, rows);
      MapRows(rows)
    }
  }
}
