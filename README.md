# Spring AI Shield — a Dafny model of the request risk-scoring gate

Spring AI Shield puts a servlet filter in front of a Spring application. The
filter scores every request and blocks the request when the score reaches 0.5.
Admitted or not, the request is recorded in a per-user behaviour history.
This project models, in Dafny, the parts of that system that hold logic:

- **`SimpleRuleEngine`** (`simplerules.dfy`). This is the baseline strategy and
  the one the auto-configuration installs by default. It has two fixed rules:
  the loopback address scores 0.5, and a URL containing `riskhigh` scores 0.9.
  Anything else gets the low default.
- **`MLPredictor`** (`mlprediction.dfy`). This simulated model is a fixed rule
  over two features of the user's recent history: whether the request's IP
  occurs in the history, and how many times it occurs.
- **`BehavioralScoringEngine`** (`hybridscoring.dfy`, with `urldecoding.dfy`
  and `strings.dfy`). This is the hybrid strategy:
  - It bands the prediction into at most one behavioural factor.
  - It adds content factors from keyword heuristics over the
    `URLDecoder`-decoded, lower-cased URL. When the URL cannot be decoded, it
    uses a degraded raw-text check instead.
  - It sums the weights and caps the sum at 1.0.
  - The reason is taken from the first factor of maximal weight.
- **`AIShieldFilter.doFilterInternal`** (`shieldfilter.dfy`). This is the
  decision gate:
  - It builds the context (`ANONYMOUS` user by default, `?query` appended when
    there is a query string).
  - It blocks with 403 when the score is at least 0.5.
  - It saves exactly one record per request.
  - It forwards down the chain only when the request was not blocked.
- **The history store** (`behaviorservice.dfy`, `jpapersistence.dfy`):
  - `BehaviorRepositoryImpl.save` replaces the outcome label with a
    `name:weight; …` summary of the factors whenever there are factors.
  - The read path maps rows back with a fixed reason and no factors.
  - The native query `findRecentByUserIdNative` filters by user, orders by
    timestamp descending and applies the limit.
  - The table is a class over an in-memory sequence of rows, with ids drawn
    from an increasing counter (IDENTITY).

Scores and weights are exact integers in hundredths: 10 is 0.1 and 100 is the
1.0 cap. Every constant of the system is a two-decimal value, and only sums,
comparisons and clamps are applied to them. `riskmodel.dfy` holds the shared
value types (`RiskFactor`, `RiskScore`, `SecurityContext`, `UserBehavior`).
`scoringexamples.dfy` works through concrete requests.

Facts of the code worth knowing:

- For an unseen IP with a non-empty history the prediction is exactly 0.5.
  That does not exceed the `> 0.5` band, so the factor weighs 0.2. The
  0.5-weight ML factor is unreachable (`HybridScoring.MlBanding`).
- `RiskScore.java` declares only `(score, reason)`, but the engine and the
  store use a third component holding the contributing factors. The model's
  `RiskScore` has three fields, and the two-argument form means no factors.
- The hybrid score lies in [0.1, 1.0], and the baseline score is one of 0.1,
  0.5 and 0.9.

The `RiskScoringService` interface becomes a datatype with one constructor
per implementation and a dispatch method (`ShieldFilter.CalculateRisk`).
The history store's clock reads (`Instant.now()`) become a `now` parameter.
The servlet request becomes a value holding remote address, URI, query string
and remote user. The response becomes a class with status, content type and
body. The filter chain becomes a class that records the requests passed on.
The filter also keeps the ordered trace of its side effects, so that the order
"score, 403 answer, save, forward" can be stated and proved.

## Model

| member | source | states |
|---|---|---|
| `RiskModel.Low` | spring-ai-shield-core/src/main/java/com/springaishield/core/model/RiskScore.java:6-8 | The low default has no factors and a score inside [0.0, 1.0] (it is 0.1 with "Contexte habituel."). |
| `RiskModel.WithoutFactors` | spring-ai-shield-core/src/main/java/com/springaishield/core/model/RiskScore.java:4 | The two-argument `RiskScore` keeps its score and reason and carries no factors. |
| `RiskModel.NewBehavior` | spring-ai-shield-core/src/main/java/com/springaishield/core/model/UserBehavior.java:19-21 | The secondary `UserBehavior` constructor gives a record with no id, stamped with the clock read, with the other five fields as passed. |
| `SimpleRules.CalculateRisk` | spring-ai-shield-core/src/main/java/com/springaishield/core/impl/SimpleRuleEngine.java:11-25 | Loopback IP gives 0.5 with the development-IP reason; otherwise a URL containing `riskhigh` gives 0.9 with the SQL-simulation reason; otherwise the low default; never any factors. |
| `SimpleRules.ScoreInRange` | spring-ai-shield-core/src/main/java/com/springaishield/core/impl/SimpleRuleEngine.java:13-24 | Every baseline score lies in [0.0, 1.0] and is one of 0.1, 0.5, 0.9. |
| `SimpleRules.LoopbackTakesPrecedence` | spring-ai-shield-core/src/main/java/com/springaishield/core/impl/SimpleRuleEngine.java:13-20 | From 127.0.0.1 the score is 0.5 whatever the URL, even a `riskhigh` one (never 0.9). |
| `SimpleRules.MatchingIsCaseSensitive` | spring-ai-shield-core/src/main/java/com/springaishield/core/impl/SimpleRuleEngine.java:18-20 | `RISKHIGH` is not matched (low result) while `riskhigh` is (0.9). |
| `SimpleRules.MatchingIsUndecoded` | spring-ai-shield-core/src/main/java/com/springaishield/core/impl/SimpleRuleEngine.java:18 | A percent-escaped marker `%72iskhigh` is not matched: the rule reads the raw URL. |
| `UrlDecoding.HexDigit` | spring-ai-shield-core/src/main/java/com/springaishield/core/impl/BehavioralScoringEngine.java:76 | A character is a digit exactly when it is an ASCII hexadecimal digit (`0`-`9`, `a`-`f`, `A`-`F`), and its value is below 16. |
| `UrlDecoding.HexDigitTable` | spring-ai-shield-core/src/main/java/com/springaishield/core/impl/BehavioralScoringEngine.java:76 | Each of the sixteen digits has its value, in lower case and in upper case alike (`c` and `C` are both 12). |
| `UrlDecoding.EscapeValue` | spring-ai-shield-core/src/main/java/com/springaishield/core/impl/BehavioralScoringEngine.java:76 | An escape is accepted exactly when its second character is a hex digit and its first is a hex digit, `+`, or `-` before a zero digit (the parseInt sign quirk). An accepted escape is a byte: two hex digits give 16·hi + lo, `+` gives the second digit and `-` gives 0. |
| `UrlDecoding.Decode` | spring-ai-shield-core/src/main/java/com/springaishield/core/impl/BehavioralScoringEngine.java:76 | A successful decode is never longer than its input. |
| `UrlDecoding.DecodePlain` | spring-ai-shield-core/src/main/java/com/springaishield/core/impl/BehavioralScoringEngine.java:76 | Text without `%` or `+` decodes to itself. |
| `UrlDecoding.DecodeAppend` | spring-ai-shield-core/src/main/java/com/springaishield/core/impl/BehavioralScoringEngine.java:76 | Decoding is compositional: a decodable prefix decodes the same in front of any suffix, and the whole fails exactly when the suffix fails. |
| `UrlDecoding.DecodeConcat` | spring-ai-shield-core/src/main/java/com/springaishield/core/impl/BehavioralScoringEngine.java:76 | Two decodable texts decode together to the concatenation of their decodings. |
| `UrlDecoding.DecodeTrailingPercentFails` | spring-ai-shield-core/src/main/java/com/springaishield/core/impl/BehavioralScoringEngine.java:76 | Any text ending in a lone `%` fails to decode, whatever precedes it. |
| `UrlDecoding.DecodeEncode` | spring-ai-shield-core/src/main/java/com/springaishield/core/impl/BehavioralScoringEngine.java:76 | Round trip: decoding the form-encoding of ASCII text gives the text back. |
| `UrlDecoding.EscapeExamples` | spring-ai-shield-core/src/main/java/com/springaishield/core/impl/BehavioralScoringEngine.java:76 | `%3C` and `%3c` are `<`, `+` is a space, `%+7` and `%-0` are accepted (parseInt sign quirk), `%-7`, `%zz`, `%z1` and a cut-short `%4` fail. |
| `MLPrediction.PredictRisk` | spring-ai-shield-core/src/main/java/com/springaishield/core/impl/MLPredictor.java:18-49 | Result in [0.0, 0.5]; empty history gives 0.3; a non-empty history without the IP gives 0.5; an IP seen 1 to 20 times gives 0.1; more than 20 times gives 0.0 (clamped from -0.05). |
| `MLPrediction.IsKnownIp` | spring-ai-shield-core/src/main/java/com/springaishield/core/impl/MLPredictor.java:22-23 | The IP is known exactly when it occurs among the history's IPs. |
| `MLPrediction.RecentAccessCount` | spring-ai-shield-core/src/main/java/com/springaishield/core/impl/MLPredictor.java:25-27 | The count never exceeds the history's length; it is the whole length when every record has the IP and 0 when none has it. |
| `MLPrediction.Clamp` | spring-ai-shield-core/src/main/java/com/springaishield/core/impl/MLPredictor.java:48 | The result lies in [0.0, 0.5], keeps values already inside, and maps values below to 0.0 and above to 0.5. |
| `MLPrediction.KnownIffCounted` | spring-ai-shield-core/src/main/java/com/springaishield/core/impl/MLPredictor.java:22-27 | `isKnownIp` holds exactly when `recentAccessCount` is at least 1. |
| `MLPrediction.AdjustmentsExclusive` | spring-ai-shield-core/src/main/java/com/springaishield/core/impl/MLPredictor.java:37-45 | The +0.4 (new IP) and -0.15 (frequent IP) adjustments never both apply. |
| `MLPrediction.CountIsMultiplicity` | spring-ai-shield-core/src/main/java/com/springaishield/core/impl/MLPredictor.java:25-27 | The access count is the IP's multiplicity in the multiset of history IPs. |
| `MLPrediction.PredictionDependsOnIpMultiset` | spring-ai-shield-core/src/main/java/com/springaishield/core/impl/MLPredictor.java:22-48 | Two histories with the same multiset of IPs get the same prediction (other fields and order are irrelevant). |
| `MLPrediction.CountPermutationInvariant` | spring-ai-shield-core/src/main/java/com/springaishield/core/impl/MLPredictor.java:25-27 | Permuting the history does not change the access count. |
| `MLPrediction.PredictionPermutationInvariant` | spring-ai-shield-core/src/main/java/com/springaishield/core/impl/MLPredictor.java:22-48 | Reordering the history does not change the prediction. |
| `HybridScoring.MlFactors` | spring-ai-shield-core/src/main/java/com/springaishield/core/impl/BehavioralScoringEngine.java:63-67 | Prediction > 0.5 gives exactly the 0.5 ML factor, (0.3, 0.5] exactly the 0.2 factor, ≤ 0.3 nothing (each an if-and-only-if). |
| `HybridScoring.MlBanding` | spring-ai-shield-core/src/main/java/com/springaishield/core/impl/BehavioralScoringEngine.java:59-67 | With the real predictor the 0.5-weight ML factor never appears; the 0.2 factor appears exactly for a non-empty history that lacks the IP (empty history adds nothing). |
| `HybridScoring.DecodedHeuristics` | spring-ai-shield-core/src/main/java/com/springaishield/core/impl/BehavioralScoringEngine.java:79-92 | SQL, XSS and CRITICAL_URL factors each appear exactly when their markers occur in the text, at most once each, in that order. |
| `HybridScoring.ContentFactors` | spring-ai-shield-core/src/main/java/com/springaishield/core/impl/BehavioralScoringEngine.java:70-100 | No URL: no factors. Decodable URL: the heuristics on the decoded, lower-cased text. Undecodable URL: only DECODE_ERROR_SUSPICION, exactly when the raw lower-cased URL holds `select` or `<script>`. |
| `HybridScoring.HybridFactors` | spring-ai-shield-core/src/main/java/com/springaishield/core/impl/BehavioralScoringEngine.java:32-38 | The gathered list is at least as long as the content factors and at most one factor longer; that the content factors form its suffix is stated by `HybridScoring.HybridFactorsEndWithContent`. |
| `HybridScoring.HybridFactorsEndWithContent` | spring-ai-shield-core/src/main/java/com/springaishield/core/impl/BehavioralScoringEngine.java:32-38 | The list ends with exactly the content factors; a factor before them can only be the mild ML factor. |
| `HybridScoring.SumWeights` | spring-ai-shield-core/src/main/java/com/springaishield/core/impl/BehavioralScoringEngine.java:41 | With non-negative weights the sum is non-negative; with weights of at most 1.0 it is at most 1.0 per factor. |
| `HybridScoring.SumWeightsAppend` | spring-ai-shield-core/src/main/java/com/springaishield/core/impl/BehavioralScoringEngine.java:41 | The weight sum of two factor lists appended is the sum of their sums. |
| `HybridScoring.SumWeightsBounds` | spring-ai-shield-core/src/main/java/com/springaishield/core/impl/BehavioralScoringEngine.java:41 | With non-negative weights the sum is non-negative and at least the first weight. |
| `HybridScoring.MaxFrom` | spring-ai-shield-core/src/main/java/com/springaishield/core/impl/BehavioralScoringEngine.java:51-52 | The left-to-right max reduction ends on the first position of maximal weight. |
| `HybridScoring.FirstMaxIndex` | spring-ai-shield-core/src/main/java/com/springaishield/core/impl/BehavioralScoringEngine.java:51-52 | A non-empty factor list has a first position of maximal weight, and this is it. |
| `HybridScoring.PrimaryReason` | spring-ai-shield-core/src/main/java/com/springaishield/core/impl/BehavioralScoringEngine.java:51-54 | The reason is the detail of the first maximal-weight factor, or "Facteurs divers." for an empty list. |
| `HybridScoring.FirstMaxUnique` | spring-ai-shield-core/src/main/java/com/springaishield/core/impl/BehavioralScoringEngine.java:51-54 | The first maximal position is unique, so the reason names one definite factor. |
| `HybridScoring.EarlierFactorWinsTies` | spring-ai-shield-core/src/main/java/com/springaishield/core/impl/BehavioralScoringEngine.java:51-54 | On equal weights the earlier factor's detail is the reason. |
| `HybridScoring.Aggregate` | spring-ai-shield-core/src/main/java/com/springaishield/core/impl/BehavioralScoringEngine.java:41-56 | No factors gives exactly the low default; otherwise score = min(sum of weights, 1.0), the reason is the first heaviest factor's detail, and the factors are returned unchanged. |
| `HybridScoring.AggregateInRange` | spring-ai-shield-core/src/main/java/com/springaishield/core/impl/BehavioralScoringEngine.java:41-49 | With non-negative weights the aggregate score lies in [0.0, 1.0] and is at least the first weight up to the cap. |
| `HybridScoring.HybridRisk` | spring-ai-shield-core/src/main/java/com/springaishield/core/impl/BehavioralScoringEngine.java:31-57 | Nothing gathered gives exactly the low default; otherwise the result carries the gathered factors; the score always lies in [0.0, 1.0]. |
| `HybridScoring.ContentWeights` | spring-ai-shield-core/src/main/java/com/springaishield/core/impl/BehavioralScoringEngine.java:80-99 | Every content factor weighs 0.5, 0.6 or 0.9. |
| `HybridScoring.OrderedConcat` | spring-ai-shield-core/src/main/java/com/springaishield/core/impl/BehavioralScoringEngine.java:32-38 | The ML factors followed by the content factors stay in analysis order. |
| `HybridScoring.HybridFactorsShape` | spring-ai-shield-core/src/main/java/com/springaishield/core/impl/BehavioralScoringEngine.java:32-38 | The gathered factors are at most four, in the order ML, SQL (or decode error), XSS, CRITICAL_URL, each kind at most once, never the 0.5 ML factor, all weights in {0.2, 0.5, 0.6, 0.9}, and they are the returned factors. |
| `HybridScoring.HybridScoreInRange` | spring-ai-shield-core/src/main/java/com/springaishield/core/impl/BehavioralScoringEngine.java:31-57 | The hybrid score lies in [0.1, 1.0]. |
| `HybridScoring.ThresholdNeedsContent` | spring-ai-shield-core/src/main/java/com/springaishield/core/impl/BehavioralScoringEngine.java:59-99 | The hybrid score reaches 0.5 exactly when some content factor fired; a score of at least 0.5 always comes with factors. |
| `HybridScoring.WithoutHistoryOnlyContent` | spring-ai-shield-core/src/main/java/com/springaishield/core/impl/BehavioralScoringEngine.java:59-67 | With an empty history the factors are exactly the content factors. |
| `HybridScoring.SingleFactorRisk` | spring-ai-shield-core/src/main/java/com/springaishield/core/impl/BehavioralScoringEngine.java:41-56 | One factor: score is its weight capped at 1.0, reason its detail. |
| `HybridScoring.PairRisk` | spring-ai-shield-core/src/main/java/com/springaishield/core/impl/BehavioralScoringEngine.java:41-56 | Two factors: score is the capped sum; the second one's detail is the reason only when it is strictly heavier. |
| `HybridScoring.NoUrlNoContentFactors` | spring-ai-shield-core/src/main/java/com/springaishield/core/impl/BehavioralScoringEngine.java:71 | A null URL leaves only the behavioural factor, if any. |
| `HybridScoring.HybridPermutationInvariant` | spring-ai-shield-core/src/main/java/com/springaishield/core/impl/BehavioralScoringEngine.java:59-67 | Reordering the history does not change the hybrid score. |
| `HybridScoring.BehavioralScoringEngine.constructor` | spring-ai-shield-core/src/main/java/com/springaishield/core/impl/BehavioralScoringEngine.java:25-28 | The engine keeps the history store it is given. |
| `HybridScoring.BehavioralScoringEngine.RecentHistory` | spring-ai-shield-core/src/main/java/com/springaishield/core/impl/BehavioralScoringEngine.java:60 | The history read holds at most 50 records, all of the context's user. |
| `HybridScoring.BehavioralScoringEngine.AnalyzeMachineLearning` | spring-ai-shield-core/src/main/java/com/springaishield/core/impl/BehavioralScoringEngine.java:59-68 | Appends exactly the banded ML factor of the prediction over the fetched history to the list. |
| `HybridScoring.BehavioralScoringEngine.AnalyzeContent` | spring-ai-shield-core/src/main/java/com/springaishield/core/impl/BehavioralScoringEngine.java:70-101 | Appends exactly the content factors (decoded path or raw fallback) to the list. |
| `HybridScoring.BehavioralScoringEngine.CalculateRisk` | spring-ai-shield-core/src/main/java/com/springaishield/core/impl/BehavioralScoringEngine.java:30-57 | The result is the aggregate of the ML then content factors over the user's 50 most recent records, and lies in [0.1, 1.0]. |
| `ScoringExamples.PlainUrlContent` | spring-ai-shield-core/src/main/java/com/springaishield/core/impl/BehavioralScoringEngine.java:76-77 | A lower-case URL without escapes or `+` is analysed exactly as written. |
| `ScoringExamples.SqlKeywordScores` | spring-ai-shield-core/src/main/java/com/springaishield/core/impl/BehavioralScoringEngine.java:76-81 | With empty history, `SELECT` or `select` in the URL scores exactly 0.6 with the SQL reason and the single SQL factor. |
| `ScoringExamples.RawScriptTagScores` | spring-ai-shield-core/src/main/java/com/springaishield/core/impl/BehavioralScoringEngine.java:85-87 | With empty history a raw `<script>` scores 0.5 with the XSS reason. |
| `ScoringExamples.EncodedScriptDecodes` | spring-ai-shield-core/src/main/java/com/springaishield/core/impl/BehavioralScoringEngine.java:76 | `/search?q=%3Cscript%3Ealert(1)%3C/script%3E` decodes to `/search?q=<script>alert(1)</script>`. |
| `ScoringExamples.EncodedScriptDetected` | spring-ai-shield-core/src/main/java/com/springaishield/core/impl/BehavioralScoringEngine.java:76-87 | That encoded URL scores at least 0.5 with the XSS reason, whatever the history. |
| `ScoringExamples.CleanRequestIsLow` | spring-ai-shield-core/src/main/java/com/springaishield/core/impl/BehavioralScoringEngine.java:43-45 | `/home?page=1` with empty history scores exactly the low default, below 0.2. |
| `ScoringExamples.CriticalFromNewIp` | spring-ai-shield-core/src/main/java/com/springaishield/core/impl/BehavioralScoringEngine.java:47-56 | `riskhigh` from an IP unseen in a non-empty history: factors 0.2 then 0.9, score capped to 1.0, the critical detail as reason. |
| `ScoringExamples.MalformedEscapeFallback` | spring-ai-shield-core/src/main/java/com/springaishield/core/impl/BehavioralScoringEngine.java:94-99 | After a decode failure a raw `union` is missed (no factor) and a raw `SELECT` gives DECODE_ERROR_SUSPICION alone. |
| `JpaPersistence.Matching` | spring-ai-shield-spring-boot/src/main/java/com/springaishield/springboot/persistence/jpa/JpaBehaviorRepository.java:12 | `WHERE user_id = :userId` keeps only rows of the user, drawn from the table. |
| `JpaPersistence.MatchingMultiplicity` | spring-ai-shield-spring-boot/src/main/java/com/springaishield/springboot/persistence/jpa/JpaBehaviorRepository.java:12 | Each row of the user is selected as often as it occurs in the table; rows of other users never are. |
| `JpaPersistence.InsertByTimestamp` | spring-ai-shield-spring-boot/src/main/java/com/springaishield/springboot/persistence/jpa/JpaBehaviorRepository.java:12 | Inserting into a timestamp-descending list keeps it sorted and adds exactly that row. |
| `JpaPersistence.SortByTimestampDesc` | spring-ai-shield-spring-boot/src/main/java/com/springaishield/springboot/persistence/jpa/JpaBehaviorRepository.java:12 | `ORDER BY timestamp DESC` yields a timestamp-descending permutation of its input. |
| `JpaPersistence.RecentRows` | spring-ai-shield-spring-boot/src/main/java/com/springaishield/springboot/persistence/jpa/JpaBehaviorRepository.java:12 | The query returns min(limit, matching rows) rows, all of the user, timestamp descending (its full specification is `RecentRowsIsAnswer`). |
| `JpaPersistence.IsRecentAnswer` | spring-ai-shield-spring-boot/src/main/java/com/springaishield/springboot/persistence/jpa/JpaBehaviorRepository.java:12 | Every answer that SQL allows has at most `limit` rows, each a row of the table. |
| `JpaPersistence.SortedPrefixIsAnswer` | spring-ai-shield-spring-boot/src/main/java/com/springaishield/springboot/persistence/jpa/JpaBehaviorRepository.java:12 | The first min(limit, n) rows of any sorted arrangement of the user's rows form an answer the SQL semantics allows. |
| `JpaPersistence.RecentRowsIsAnswer` | spring-ai-shield-spring-boot/src/main/java/com/springaishield/springboot/persistence/jpa/JpaBehaviorRepository.java:12 | The query result holds only the user's rows, timestamp descending, length min(limit, matching rows), a sub-multiset of the table, and no omitted row of the user is newer than a returned one. |
| `JpaPersistence.RecentRowsFromTable` | spring-ai-shield-spring-boot/src/main/java/com/springaishield/springboot/persistence/jpa/JpaBehaviorRepository.java:12 | Every returned row is a distinct row of the table. |
| `JpaPersistence.NewestRowComesFirst` | spring-ai-shield-spring-boot/src/main/java/com/springaishield/springboot/persistence/jpa/JpaBehaviorRepository.java:12 | A row saved no earlier than every stored row is the first answer of its user's query. |
| `JpaPersistence.JpaBehaviorRepository.constructor` | spring-ai-shield-spring-boot/src/main/java/com/springaishield/springboot/persistence/entity/UserBehaviorEntity.java:10-12 | The table starts empty and the identity counter at 1. |
| `JpaPersistence.JpaBehaviorRepository.Save` | spring-ai-shield-spring-boot/src/main/java/com/springaishield/springboot/persistence/entity/UserBehaviorEntity.java:10-12 | Inserting a new row gives it the next identity value, appends it to the table and advances the counter, keeping ids increasing. |
| `JpaPersistence.JpaBehaviorRepository.FindRecentByUserIdNative` | spring-ai-shield-spring-boot/src/main/java/com/springaishield/springboot/persistence/jpa/JpaBehaviorRepository.java:12-13 | The native query's answer satisfies the filter / order / limit / provenance contract of `SELECT … WHERE … ORDER BY timestamp DESC LIMIT`. |
| `JpaPersistence.StoredIdsDistinct` | spring-ai-shield-spring-boot/src/main/java/com/springaishield/springboot/persistence/entity/UserBehaviorEntity.java:10-12 | No two stored rows share an id. |
| `Strings.ToLowerAscii` | spring-ai-shield-core/src/main/java/com/springaishield/core/impl/BehavioralScoringEngine.java:77 | Lower-casing keeps the length and maps each character through ASCII lower-casing. |
| `Strings.Contains` | spring-ai-shield-core/src/main/java/com/springaishield/core/impl/BehavioralScoringEngine.java:80 | A text can contain a pattern only when the pattern is no longer than the text. |
| `Strings.ToLowerAsciiIdempotent` | spring-ai-shield-core/src/main/java/com/springaishield/core/impl/BehavioralScoringEngine.java:77 | Lower-cased text has no upper-case ASCII letter and lower-casing again changes nothing. |
| `Strings.NatToString` | spring-ai-shield-spring-boot/src/main/java/com/springaishield/springboot/service/BehaviorRepositoryImpl.java:64 | The decimal text of an id is a non-empty string of digits. |
| `Strings.ParseNatToString` | spring-ai-shield-spring-boot/src/main/java/com/springaishield/springboot/service/BehaviorRepositoryImpl.java:64 | Reading the decimal text of an id back gives the id. |
| `Strings.NatToStringInjective` | spring-ai-shield-spring-boot/src/main/java/com/springaishield/springboot/service/BehaviorRepositoryImpl.java:64 | Distinct ids have distinct texts. |
| `Strings.JoinStartsWithFirst` | spring-ai-shield-spring-boot/src/main/java/com/springaishield/springboot/service/BehaviorRepositoryImpl.java:29-31 | A joined summary begins with its first item. |
| `Strings.JoinEmptyIff` | spring-ai-shield-spring-boot/src/main/java/com/springaishield/springboot/service/BehaviorRepositoryImpl.java:29-31 | Joining gives the empty text exactly when there are no items (first item non-empty). |
| `Strings.JoinAppend` | spring-ai-shield-spring-boot/src/main/java/com/springaishield/springboot/service/BehaviorRepositoryImpl.java:29-31 | Joining one more item gives the earlier join, the separator and the new item, for any number of earlier items. |
| `BehaviorService.DecimalTextOfWeights` | spring-ai-shield-spring-boot/src/main/java/com/springaishield/springboot/service/BehaviorRepositoryImpl.java:30 | The weights print as `0.2`, `0.5`, `0.6`, `0.9` and the cap as `1.0`. |
| `BehaviorService.DecimalText` | spring-ai-shield-spring-boot/src/main/java/com/springaishield/springboot/service/BehaviorRepositoryImpl.java:30 | A non-negative value prints as its integer part and a point, then `0` for whole values; otherwise the tenths digit, followed by the hundredths digit exactly when it is not zero (0.25 is `0.25`, 0.2 is `0.2`, 0.05 is `0.05`). A negative value starts with `-`. |
| `BehaviorService.FactorItem` | spring-ai-shield-spring-boot/src/main/java/com/springaishield/springboot/service/BehaviorRepositoryImpl.java:30 | A summary item is the factor name, then `:`, then the weight's `Double.toString` text. |
| `BehaviorService.FactorItems` | spring-ai-shield-spring-boot/src/main/java/com/springaishield/springboot/service/BehaviorRepositoryImpl.java:29-30 | Item i of the summary items is the item of factor i, for every factor. |
| `BehaviorService.FactorSummary` | spring-ai-shield-spring-boot/src/main/java/com/springaishield/springboot/service/BehaviorRepositoryImpl.java:29-31 | No factor gives the empty summary; a single factor gives its item alone. |
| `BehaviorService.SummaryOfTwo` | spring-ai-shield-spring-boot/src/main/java/com/springaishield/springboot/service/BehaviorRepositoryImpl.java:29-31 | Two factors give their items joined by `; `. |
| `BehaviorService.SummaryAppend` | spring-ai-shield-spring-boot/src/main/java/com/springaishield/springboot/service/BehaviorRepositoryImpl.java:29-31 | Adding a factor to a non-empty list appends `; ` and its item to the summary, so summaries of any length are the items joined by `; ` in factor order. |
| `BehaviorService.SummaryEmptyIffNoFactors` | spring-ai-shield-spring-boot/src/main/java/com/springaishield/springboot/service/BehaviorRepositoryImpl.java:29-31 | The summary is empty exactly when there are no factors; otherwise it starts with the first factor's name followed by `:`. |
| `BehaviorService.SummaryIsNotOutcomeLabel` | spring-ai-shield-spring-boot/src/main/java/com/springaishield/springboot/service/BehaviorRepositoryImpl.java:38 | A non-empty summary differs from any label without `:`. |
| `BehaviorService.StoredEventType` | spring-ai-shield-spring-boot/src/main/java/com/springaishield/springboot/service/BehaviorRepositoryImpl.java:38 | The stored label is the event type when there are no factors and the factor summary otherwise. |
| `BehaviorService.ToEntity` | spring-ai-shield-spring-boot/src/main/java/com/springaishield/springboot/service/BehaviorRepositoryImpl.java:35-41 | The new row copies user, IP, URL and score, carries the stored label, has no id and the clock read as timestamp. |
| `BehaviorService.MapEntityToCore` | spring-ai-shield-spring-boot/src/main/java/com/springaishield/springboot/service/BehaviorRepositoryImpl.java:60-72 | Mapping keeps user, IP, event type, URL, timestamp and score, sets the fixed reason and no factors, and renders the id as text. |
| `BehaviorService.IdText` | spring-ai-shield-spring-boot/src/main/java/com/springaishield/springboot/service/BehaviorRepositoryImpl.java:64 | A missing id prints as `null`; an id prints as digits that read back to the id. |
| `BehaviorService.MapRows` | spring-ai-shield-spring-boot/src/main/java/com/springaishield/springboot/service/BehaviorRepositoryImpl.java:55-57 | Rows are mapped element-wise: same length, same order. |
| `BehaviorService.MappedAnswer` | spring-ai-shield-spring-boot/src/main/java/com/springaishield/springboot/service/BehaviorRepositoryImpl.java:52-57 | A mapped query answer has at most `limit` records, all of the user, without factors, timestamp descending. |
| `BehaviorService.SaveRoundTrip` | spring-ai-shield-spring-boot/src/main/java/com/springaishield/springboot/service/BehaviorRepositoryImpl.java:26-47 | After save and read back: user, IP, URL, score and timestamp kept, label is the stored label, the id text parses back to the assigned id, reason and factors are lost (so a record with factors never round-trips). |
| `BehaviorService.SavedRecordReadFirst` | spring-ai-shield-spring-boot/src/main/java/com/springaishield/springboot/service/BehaviorRepositoryImpl.java:44-57 | A record saved no earlier than every stored row is the first record read back for its user. |
| `BehaviorService.BehaviorRepositoryImpl.constructor` | spring-ai-shield-spring-boot/src/main/java/com/springaishield/springboot/service/BehaviorRepositoryImpl.java:21-23 | The store keeps the JPA repository it is given. |
| `BehaviorService.BehaviorRepositoryImpl.Save` | spring-ai-shield-spring-boot/src/main/java/com/springaishield/springboot/service/BehaviorRepositoryImpl.java:26-48 | Appends exactly the converted row under the next id and returns it mapped back, its id the decimal text of that id. |
| `BehaviorService.BehaviorRepositoryImpl.FindRecentByUserId` | spring-ai-shield-spring-boot/src/main/java/com/springaishield/springboot/service/BehaviorRepositoryImpl.java:51-58 | The query rows mapped element-wise: at most `limit`, all of the user, no factors, timestamp descending. |
| `ShieldFilter.RequestUrl` | spring-ai-shield-spring-boot/src/main/java/com/springaishield/springboot/security/AIShieldFilter.java:43-46 | The URL is the URI, followed by `?` and the query exactly when a query string exists. |
| `ShieldFilter.UserIdOf` | spring-ai-shield-spring-boot/src/main/java/com/springaishield/springboot/security/AIShieldFilter.java:48 | The user is the remote user when present, else `ANONYMOUS`. |
| `ShieldFilter.BuildContext` | spring-ai-shield-spring-boot/src/main/java/com/springaishield/springboot/security/AIShieldFilter.java:42-52 | The context holds the user, the (always present) URL and the remote address, in record order. |
| `ShieldFilter.SplitRequestUrlInverse` | spring-ai-shield-spring-boot/src/main/java/com/springaishield/springboot/security/AIShieldFilter.java:43-46 | For a URI without `?`, the built URL splits back into URI and query string. |
| `ShieldFilter.EventTypeFor` | spring-ai-shield-spring-boot/src/main/java/com/springaishield/springboot/security/AIShieldFilter.java:49-64 | `ACCESS_DENIED` exactly when blocked, `ACCESS_GRANTED` exactly when not. |
| `ShieldFilter.BlockingIsUpwardClosed` | spring-ai-shield-spring-boot/src/main/java/com/springaishield/springboot/security/AIShieldFilter.java:61 | The blocking test `score >= 0.5` is upward closed: 0.5 blocks, 0.49 does not, 1.0 blocks, 0.1 does not. |
| `ShieldFilter.RecordFor` | spring-ai-shield-spring-boot/src/main/java/com/springaishield/springboot/security/AIShieldFilter.java:74 | The saved record carries this request's user, IP, outcome label, URL and risk, with no id. |
| `ShieldFilter.ServiceRisk` | spring-ai-shield-core/src/main/java/com/springaishield/core/service/RiskScoringService.java:13-17 | Each strategy's score lies in [0.0, 1.0]; the baseline is `SimpleRules.CalculateRisk`, the hybrid engine is the aggregate over the store's current history. |
| `ShieldFilter.CalculateRisk` | spring-ai-shield-spring-boot/src/main/java/com/springaishield/springboot/security/AIShieldFilter.java:55 | Dispatching to the configured strategy gives that strategy's score in the state before the call. |
| `ShieldFilter.DefaultStrategyBlocksLoopback` | spring-ai-shield-spring-boot/src/main/java/com/springaishield/springboot/configuration/AIShieldAutoConfiguration.java:35-39 | With the default strategy every request from 127.0.0.1 is blocked and recorded as `ACCESS_DENIED`. |
| `ShieldFilter.BaselineStoresOutcomeLabel` | spring-ai-shield-spring-boot/src/main/java/com/springaishield/springboot/service/BehaviorRepositoryImpl.java:38 | Under the baseline strategy the stored label is the outcome label itself. |
| `ShieldFilter.StoredLabel` | spring-ai-shield-spring-boot/src/main/java/com/springaishield/springboot/service/BehaviorRepositoryImpl.java:29-38 | A decided request's stored label is its outcome label without factors, otherwise the summary, which is neither outcome label. |
| `ShieldFilter.HybridDeniedLabelIsSummary` | spring-ai-shield-spring-boot/src/main/java/com/springaishield/springboot/service/BehaviorRepositoryImpl.java:29-38 | Under the hybrid engine a denied request always has factors, so its stored label is the factor summary and never `ACCESS_DENIED`; without factors the label is `ACCESS_GRANTED`. |
| `ShieldFilter.SavedExactlyOnce` | spring-ai-shield-spring-boot/src/main/java/com/springaishield/springboot/security/AIShieldFilter.java:74-75 | Exactly one record is saved per request, blocked or not, and it is this request's record. |
| `ShieldFilter.ForwardIffAllowed` | spring-ai-shield-spring-boot/src/main/java/com/springaishield/springboot/security/AIShieldFilter.java:63-80 | The request is forwarded exactly when not blocked and answered 403 exactly when blocked. |
| `ShieldFilter.EffectsInOrder` | spring-ai-shield-spring-boot/src/main/java/com/springaishield/springboot/security/AIShieldFilter.java:55-80 | Scoring comes first, the 403 answer precedes the save, and the save precedes the forward. |
| `ShieldFilter.FilterChain.DoFilter` | spring-ai-shield-spring-boot/src/main/java/com/springaishield/springboot/security/AIShieldFilter.java:79 | Passing the request on appends it to the chain's forwarded requests. |
| `ShieldFilter.AIShieldFilter.constructor` | spring-ai-shield-spring-boot/src/main/java/com/springaishield/springboot/security/AIShieldFilter.java:32-35 | The filter keeps its strategy and store; no effect has happened yet. |
| `ShieldFilter.AIShieldFilter.DoFilterInternal` | spring-ai-shield-spring-boot/src/main/java/com/springaishield/springboot/security/AIShieldFilter.java:38-83 | With the pre-call score of the request's context: the effects are score, 403 when the score is at least 0.5, one save, forward when below; the table gains exactly this request's row; the chain gains the request iff not blocked; status, content type and body change iff blocked. |
| `ShieldFilter.AIShieldFilter.Enforce` | spring-ai-shield-spring-boot/src/main/java/com/springaishield/springboot/security/AIShieldFilter.java:61-80 | For a known score: 403 answer iff score ≥ 0.5, exactly one row appended, forward iff not blocked, in that order. |

## Left out

- `SimpleRules.CalculateRisk`: requires the URL to be present when the IP is not the loopback address. The Java code then dereferences a null URL and throws a NullPointerException, which the model does not represent. The filter always supplies a URL.
- Floating point: weights and scores are exact hundredths. Double rounding and the compensated `DoubleStream.sum` are not modelled. `Double.toString` is modelled only for two-decimal values below 10^7 (`BehaviorService.DecimalText`): from 10^7 on Java switches to E-notation (`1.0E7`), which the model does not produce. The weights the system prints are at most 1.0.
- `BehaviorService.DecimalText`: values of 10^7 and above print here in plain notation, where `Double.toString` writes E-notation (`1.0E7`). No weight or score the system prints comes near that bound.
- `Strings.ToLowerAscii`: lower-casing is ASCII only. The `Locale.ROOT` mapping of non-ASCII letters is not modelled; for example KELVIN SIGN lower-cases to `k` in Java. All markers are ASCII.
- `UrlDecoding.Decode`: a decoded byte of 0x80 or above becomes the character with that code. It is not UTF-8-decoded, so multi-byte sequences and malformed-UTF-8 replacement characters are not modelled.
- `UrlDecoding.HexDigit`: only ASCII hex digits are accepted. `Character.digit(c, 16)` also accepts non-ASCII decimal digits (such as ARABIC-INDIC DIGIT THREE) and fullwidth `A`-`F`/`a`-`f`. An escape written with those digits decodes in Java but fails here, so the model sends that URL to the raw-text fallback (`%٣C` after `select` gives DECODE_ERROR_SUSPICION, 0.5, where Java finds `select<` and gives SQL_HEURISTIC, 0.6).
- Clock: `Instant.now()` becomes the `now` parameter. The record's own timestamp and the row's timestamp are two clock reads in Java; in the model they are the same value.
- `JpaPersistence.JpaBehaviorRepository.Save`: models only the insert of a new row (id absent), which is the only way the store uses it. Updating an existing entity by id is not modelled.
- Rows with equal timestamps: the database may return them in any order. `RecentRows` puts the later-saved row first, and `IsRecentAnswer` states what every allowed order satisfies.
- The query limit is a natural number. A negative `int` limit, which the database would reject, is not modelled.
- Store failures and exceptions: read and write faults, which propagate to the servlet container, are not modelled.
- Spring wiring: bean registration, annotations and the demo application are not modelled. The only fact kept is that the default strategy is the baseline (`DefaultRiskScoringService`).
- Servlet and logging plumbing: SLF4J logging is not modelled. The response writer is reduced to appending the message to a body field. `OncePerRequestFilter` dispatch is not modelled.
- Concurrency: concurrent requests may read history that is missing each other's records. The model is sequential.
- Idempotence of scoring (same context, same history, same score) holds trivially because scoring is a function of its inputs; it is not stated as a separate lemma.
