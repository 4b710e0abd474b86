/**
 * Worked requests for the hybrid scorer, one per scenario of the engine's
 * own test class, plus the decoding fallback.
 */
module ScoringExamples {
  import opened RiskModel
  import opened Strings
  import opened UrlDecoding
  import opened MLPrediction
  import opened HybridScoring

  /** A URL without escapes, '+' or upper-case letters is analysed exactly as written. */
  lemma PlainUrlContent(url: string)
    requires '%' !in url && '+' !in url
    requires forall i :: 0 <= i < |url| ==> !('A' <= url[i] <= 'Z')
    ensures ContentFactors(Some(url)) == DecodedHeuristics(url)
  {
    DecodePlain(url);
    ToLowerAsciiOfLower(url);
  }

  lemma SelectQueryHasSql(text: string)
    requires text == "/api?query=select"
    ensures HasSqlMarker(text)
  {
    assert ContainsAt(text, "select", 11);
  }

  lemma SelectQueryLacksXss(text: string)
    requires text == "/api?query=select"
    ensures !HasXssMarker(text)
  {
    MissingCharNotContained(text, "<script>", 0);
    MissingCharNotContained(text, "onerror", 0);
    MissingCharNotContained(text, "alert(", 5);
  }

  lemma SelectQueryLacksOthers(text: string)
    requires text == "/api?query=select"
    ensures !HasXssMarker(text) && !HasCriticalMarker(text)
  {
    SelectQueryLacksXss(text);
    MissingCharNotContained(text, "riskhigh", 3);
  }

  lemma SelectQueryHeuristics(text: string)
    requires text == "/api?query=select"
    ensures DecodedHeuristics(text) == [SqlFactor]
  {
    SelectQueryHasSql(text);
    SelectQueryLacksOthers(text);
  }

  lemma LowerCaseQueryContent(url: string)
    requires url == "/api?query=select"
    ensures ContentFactors(Some(url)) == [SqlFactor]
  {
    SelectQueryHeuristics(url);
    PlainUrlContent(url);
  }

  lemma UpperCaseQueryLowers(url: string, lower: string)
    requires url == "/api?query=SELECT" && lower == "/api?query=select"
    ensures ToLowerAscii(url) == lower
  {
    forall i | 0 <= i < |url| ensures ToLowerAscii(url)[i] == lower[i] {
    }
  }

  lemma UpperCaseQueryContent(url: string, lower: string)
    requires url == "/api?query=SELECT" && lower == "/api?query=select"
    ensures ContentFactors(Some(url)) == [SqlFactor]
  {
    DecodePlain(url);
    UpperCaseQueryLowers(url, lower);
    SelectQueryHeuristics(lower);
  }

  /** Lower-casing happens before matching: an upper-case keyword is found. */
  lemma SqlKeywordScores(userId: string, ip: string)
    ensures HybridRisk(SecurityContext(userId, Some("/api?query=SELECT"), ip), []) ==
              RiskScore(60, SqlFactor.detail, [SqlFactor])
    ensures HybridRisk(SecurityContext(userId, Some("/api?query=select"), ip), []) ==
              RiskScore(60, SqlFactor.detail, [SqlFactor])
  {
    UpperCaseQueryContent("/api?query=SELECT", "/api?query=select");
    LowerCaseQueryContent("/api?query=select");
    WithoutHistoryOnlyContent(SecurityContext(userId, Some("/api?query=SELECT"), ip));
    WithoutHistoryOnlyContent(SecurityContext(userId, Some("/api?query=select"), ip));
    SingleFactorRisk(SqlFactor);
  }

  lemma ScriptTagHasXss(text: string)
    requires text == "/test?<script>"
    ensures HasXssMarker(text)
  {
    assert ContainsAt(text, "<script>", 6);
  }

  lemma ScriptTagLacksOthers(text: string)
    requires text == "/test?<script>"
    ensures !HasSqlMarker(text) && !HasCriticalMarker(text)
  {
    MissingCharNotContained(text, "select", 2);
    MissingCharNotContained(text, "union", 0);
    MissingCharNotContained(text, "--", 0);
    MissingCharNotContained(text, "riskhigh", 3);
  }

  lemma ScriptTagContent(text: string)
    requires text == "/test?<script>"
    ensures ContentFactors(Some(text)) == [XssFactor]
  {
    ScriptTagHasXss(text);
    ScriptTagLacksOthers(text);
    PlainUrlContent(text);
  }

  /** A raw script tag gives the XSS factor alone. */
  lemma RawScriptTagScores(userId: string, ip: string)
    ensures HybridRisk(SecurityContext(userId, Some("/test?<script>"), ip), []) ==
              RiskScore(50, XssFactor.detail, [XssFactor])
  {
    ScriptTagContent("/test?<script>");
    WithoutHistoryOnlyContent(SecurityContext(userId, Some("/test?<script>"), ip));
    SingleFactorRisk(XssFactor);
  }

  lemma EscapedBracketsDecode(lt: string, gt: string)
    requires lt == "%3C" && gt == "%3E"
    ensures Decode(lt) == Some("<") && Decode(gt) == Some(">")
  {
    assert lt[3..] == [] && gt[3..] == [];
    assert ['<'] + [] == "<" && ['>'] + [] == ">";
  }

  /** `prefix%3C` + `tag` + `%3E` decodes to `prefix<tag>`. */
  lemma BracketedPieces(prefix: string, tag: string, lt: string, gt: string)
    requires '%' !in prefix && '+' !in prefix && '%' !in tag && '+' !in tag
    requires lt == "%3C" && gt == "%3E"
    ensures Decode(prefix + lt + tag + gt) == Some(prefix + "<" + tag + ">")
  {
    EscapedBracketsDecode(lt, gt);
    DecodePlain(prefix);
    DecodePlain(tag);
    DecodeConcat(prefix, lt, prefix, "<");
    DecodeConcat(prefix + lt, tag, prefix + "<", tag);
    DecodeConcat(prefix + lt + tag, gt, prefix + "<" + tag, ">");
  }

  /** Either tag of the encoded script, written with escaped brackets, decodes to the tag. */
  lemma ScriptTagDecodes(closing: bool, encoded: string, decoded: string)
    requires encoded == if closing then "alert(1)%3C/script%3E" else "/search?q=%3Cscript%3E"
    requires decoded == if closing then "alert(1)</script>" else "/search?q=<script>"
    ensures Decode(encoded) == Some(decoded)
  {
    if closing {
      assert encoded == "alert(1)" + "%3C" + "/script" + "%3E" && decoded == "alert(1)" + "<" + "/script" + ">";
      BracketedPieces("alert(1)", "/script", "%3C", "%3E");
    } else {
      assert encoded == "/search?q=" + "%3C" + "script" + "%3E" && decoded == "/search?q=" + "<" + "script" + ">";
      BracketedPieces("/search?q=", "script", "%3C", "%3E");
    }
  }

  lemma EncodedScriptDecodes(url: string, text: string)
    requires url == "/search?q=%3Cscript%3Ealert(1)%3C/script%3E"
    requires text == "/search?q=<script>alert(1)</script>"
    ensures Decode(url) == Some(text)
  {
    var open, close := "/search?q=%3Cscript%3E", "alert(1)%3C/script%3E";
    var openText, closeText := "/search?q=<script>", "alert(1)</script>";
    assert url == open + close && text == openText + closeText;
    ScriptTagDecodes(false, open, openText);
    ScriptTagDecodes(true, close, closeText);
    DecodeConcat(open, close, openText, closeText);
  }

  lemma DecodedScriptIsLower(text: string)
    requires text == "/search?q=<script>alert(1)</script>"
    ensures ToLowerAscii(text) == text
  {
    ToLowerAsciiOfLower(text);
  }

  lemma DecodedScriptHasXss(text: string, before: string, tag: string, after: string)
    requires text == "/search?q=<script>alert(1)</script>"
    requires before == "/search?q=" && tag == "<script>" && after == "alert(1)</script>"
    ensures HasXssMarker(text)
  {
    assert text == before + tag + after;
    ContainsInMiddle(before, tag, after);
  }

  lemma DecodedScriptLacksSelect(text: string)
    requires text == "/search?q=<script>alert(1)</script>"
    ensures !Contains(text, "select")
  {
    MissingTripleNotContained(text, "select");
  }

  lemma DecodedScriptLacksUnion(text: string)
    requires text == "/search?q=<script>alert(1)</script>"
    ensures !Contains(text, "union")
  {
    MissingCharNotContained(text, "union", 0);
  }

  lemma DecodedScriptLacksCritical(text: string)
    requires text == "/search?q=<script>alert(1)</script>"
    ensures !HasCriticalMarker(text)
  {
    MissingCharNotContained(text, "riskhigh", 3);
  }

  lemma DecodedScriptLacksOthers(text: string)
    requires text == "/search?q=<script>alert(1)</script>"
    ensures !HasSqlMarker(text) && !HasCriticalMarker(text)
  {
    DecodedScriptLacksSelect(text);
    DecodedScriptLacksUnion(text);
    MissingCharNotContained(text, "--", 0);
    DecodedScriptLacksCritical(text);
  }

  lemma EncodedScriptContent(url: string, text: string)
    requires url == "/search?q=%3Cscript%3Ealert(1)%3C/script%3E"
    requires text == "/search?q=<script>alert(1)</script>"
    ensures ContentFactors(Some(url)) == [XssFactor]
  {
    EncodedScriptDecodes(url, text);
    DecodedScriptIsLower(text);
    DecodedScriptHasXss(text, "/search?q=", "<script>", "alert(1)</script>");
    DecodedScriptLacksOthers(text);
  }

  /** The encoded script tag is detected whatever the history: score at least 0.5, XSS reason. */
  lemma EncodedScriptDetected(userId: string, ip: string, history: seq<UserBehavior>)
    ensures var r := HybridRisk(SecurityContext(userId, Some("/search?q=%3Cscript%3Ealert(1)%3C/script%3E"), ip), history);
      r.score >= 50 && r.reason == XssFactor.detail
  {
    var context := SecurityContext(userId, Some("/search?q=%3Cscript%3Ealert(1)%3C/script%3E"), ip);
    EncodedScriptContent("/search?q=%3Cscript%3Ealert(1)%3C/script%3E", "/search?q=<script>alert(1)</script>");
    MlBanding(context, history);
    var fs := HybridFactors(context, history);
    assert fs == [XssFactor] || fs == [MlMildFactor, XssFactor];
    assert fs[FirstMaxIndex(fs)] == XssFactor;
    ThresholdNeedsContent(context, history);
  }

  lemma HomePageLacksSql(text: string)
    requires text == "/home?page=1"
    ensures !HasSqlMarker(text)
  {
    MissingCharNotContained(text, "select", 0);
    MissingCharNotContained(text, "union", 0);
    MissingCharNotContained(text, "--", 0);
  }

  lemma HomePageLacksXss(text: string)
    requires text == "/home?page=1"
    ensures !HasXssMarker(text)
  {
    MissingCharNotContained(text, "<script>", 0);
    MissingCharNotContained(text, "onerror", 3);
    MissingCharNotContained(text, "alert(", 1);
  }

  lemma HomePageMarkers(text: string)
    requires text == "/home?page=1"
    ensures !HasSqlMarker(text) && !HasXssMarker(text) && !HasCriticalMarker(text)
  {
    HomePageLacksSql(text);
    HomePageLacksXss(text);
    MissingCharNotContained(text, "riskhigh", 0);
  }

  lemma HomePageContent(text: string)
    requires text == "/home?page=1"
    ensures ContentFactors(Some(text)) == []
  {
    HomePageMarkers(text);
    PlainUrlContent(text);
  }

  /** An ordinary request with no history scores the low context, below 0.2. */
  lemma CleanRequestIsLow(userId: string, ip: string)
    ensures HybridRisk(SecurityContext(userId, Some("/home?page=1"), ip), []) == Low()
    ensures Low().score < 20
  {
    HomePageContent("/home?page=1");
    WithoutHistoryOnlyContent(SecurityContext(userId, Some("/home?page=1"), ip));
  }

  lemma CriticalUrlHasMarker(text: string)
    requires text == "/api/riskhigh"
    ensures HasCriticalMarker(text)
  {
    assert ContainsAt(text, "riskhigh", 5);
  }

  lemma CriticalUrlLacksSql(text: string)
    requires text == "/api/riskhigh"
    ensures !HasSqlMarker(text)
  {
    MissingCharNotContained(text, "select", 1);
    MissingCharNotContained(text, "union", 0);
    MissingCharNotContained(text, "--", 0);
  }

  lemma CriticalUrlLacksXss(text: string)
    requires text == "/api/riskhigh"
    ensures !HasXssMarker(text)
  {
    MissingCharNotContained(text, "<script>", 0);
    MissingCharNotContained(text, "onerror", 0);
    MissingCharNotContained(text, "alert(", 1);
  }

  lemma CriticalUrlLacksOthers(text: string)
    requires text == "/api/riskhigh"
    ensures !HasSqlMarker(text) && !HasXssMarker(text)
  {
    CriticalUrlLacksSql(text);
    CriticalUrlLacksXss(text);
  }

  lemma CriticalUrlContent(text: string)
    requires text == "/api/riskhigh"
    ensures ContentFactors(Some(text)) == [CriticalFactor]
  {
    CriticalUrlHasMarker(text);
    CriticalUrlLacksOthers(text);
    PlainUrlContent(text);
  }

  /** The critical marker from a new IP: 0.2 + 0.9 is capped at 1.0 and the critical detail is the reason. */
  lemma CriticalFromNewIp(userId: string, ip: string, history: seq<UserBehavior>)
    requires history != [] && !IsKnownIp(ip, history)
    ensures HybridRisk(SecurityContext(userId, Some("/api/riskhigh"), ip), history) ==
              RiskScore(MaxRiskScore, CriticalFactor.detail, [MlMildFactor, CriticalFactor])
  {
    var context := SecurityContext(userId, Some("/api/riskhigh"), ip);
    CriticalUrlContent("/api/riskhigh");
    MlBanding(context, history);
    assert HybridFactors(context, history) == [MlMildFactor, CriticalFactor];
    PairRisk(MlMildFactor, CriticalFactor);
  }

  /** An invalid escape after a decodable prefix makes the whole URL undecodable. */
  lemma InvalidEscapeFails(prefix: string, bad: string)
    requires '%' !in prefix && '+' !in prefix && bad == "%zz"
    ensures Decode(prefix + bad) == None
  {
    DecodePlain(prefix);
    assert bad[1] == 'z' && bad[2] == 'z';
    DecodeAppend(prefix, bad);
  }

  lemma MissedUnionFails(url: string, prefix: string)
    requires url == "/q?x=union%zz" && prefix == "/q?x=union"
    ensures Decode(url) == None
  {
    assert url == prefix + "%zz";
    InvalidEscapeFails(prefix, "%zz");
  }

  lemma MissedUnionNotSuspicious(url: string)
    requires url == "/q?x=union%zz"
    ensures !HasRawSuspicion(ToLowerAscii(url))
  {
    ToLowerAsciiOfLower(url);
    MissingCharNotContained(url, "select", 0);
    MissingCharNotContained(url, "<script>", 0);
  }

  lemma MissedUnionContent(url: string)
    requires url == "/q?x=union%zz"
    ensures ContentFactors(Some(url)) == []
  {
    MissedUnionFails(url, "/q?x=union");
    MissedUnionNotSuspicious(url);
  }

  lemma CaughtSelectLowers(url: string, lowered: string)
    requires url == "/q?x=SELECT%zz" && lowered == "/q?x=select%zz"
    ensures ToLowerAscii(url) == lowered
  {
    forall i | 0 <= i < |url| ensures ToLowerAscii(url)[i] == lowered[i] {
    }
  }

  lemma CaughtSelectSuspicious(lowered: string)
    requires lowered == "/q?x=select%zz"
    ensures HasRawSuspicion(lowered)
  {
    assert ContainsAt(lowered, "select", 5);
  }

  lemma CaughtSelectContent(url: string)
    requires url == "/q?x=SELECT%zz"
    ensures ContentFactors(Some(url)) == [DecodeErrorFactor]
  {
    assert url == "/q?x=SELECT" + "%zz";
    InvalidEscapeFails("/q?x=SELECT", "%zz");
    CaughtSelectLowers(url, "/q?x=select%zz");
    CaughtSelectSuspicious("/q?x=select%zz");
  }

  /**
   * A malformed escape turns analysis to the raw text, where only "select"
   * and "<script>" count: a raw "union" is then missed, a raw "SELECT" is not.
   */
  lemma MalformedEscapeFallback()
    ensures ContentFactors(Some("/q?x=union%zz")) == []
    ensures ContentFactors(Some("/q?x=SELECT%zz")) == [DecodeErrorFactor]
  {
    MissedUnionContent("/q?x=union%zz");
    CaughtSelectContent("/q?x=SELECT%zz");
  }
}
