/**
 * The simulated model MLPredictor.predictRisk: a fixed rule over two
 * features of the caller's recent history, whether the request's IP was
 * seen in it and how many times. Values are in hundredths.
 */
module MLPrediction {
  import opened RiskModel

  /** Value for an empty history: 0.3. */
  const ColdStartRisk: int := 30
  /** Starting point of the rule for a non-empty history: 0.1. */
  const BaseRisk: int := 10
  /** Added when the IP never occurs in the history: 0.4. */
  const NewIpPenalty: int := 40
  /** Subtracted when the IP occurs more than FrequentThreshold times: 0.15. */
  const FrequentReduction: int := 15
  const FrequentThreshold: int := 20
  /** The predictor alone never exceeds 0.5. */
  const MaxPrediction: int := 50

  /** Feature `isKnownIp`: some history record comes from `ip`. */
  predicate IsKnownIp(ip: string, history: seq<UserBehavior>)
    ensures IsKnownIp(ip, history) <==> ip in IpsOf(history)
  {
    exists i :: 0 <= i < |history| && history[i].ipAddress == ip
  }

  /** Feature `recentAccessCount`: how many history records come from `ip`. */
  function RecentAccessCount(ip: string, history: seq<UserBehavior>): (count: nat)
    ensures count <= |history|
    ensures (forall i :: 0 <= i < |history| ==> history[i].ipAddress == ip) ==> count == |history|
    ensures (forall i :: 0 <= i < |history| ==> history[i].ipAddress != ip) ==> count == 0
  {
    if history == [] then 0
    else (if history[0].ipAddress == ip then 1 else 0) + RecentAccessCount(ip, history[1..])
  }

  /** Math.max(0.0, Math.min(0.5, v)). */
  function Clamp(v: int): (r: int)
    ensures 0 <= r <= MaxPrediction
    ensures 0 <= v <= MaxPrediction ==> r == v
    ensures v < 0 ==> r == 0
    ensures v > MaxPrediction ==> r == MaxPrediction
  {
    if v > MaxPrediction then MaxPrediction else if v < 0 then 0 else v
  }

  /** The IP addresses of the history records, in order. */
  function IpsOf(history: seq<UserBehavior>): (ips: seq<string>)
    ensures |ips| == |history|
    ensures forall i :: 0 <= i < |history| ==> ips[i] == history[i].ipAddress
  {
    seq(|history|, i requires 0 <= i < |history| => history[i].ipAddress)
  }

  /** An IP is known exactly when it is counted at least once. */
  lemma {:induction false} KnownIffCounted(ip: string, history: seq<UserBehavior>)
    ensures IsKnownIp(ip, history) <==> RecentAccessCount(ip, history) >= 1
  {
    if history != [] {
      KnownIffCounted(ip, history[1..]);
      if IsKnownIp(ip, history[1..]) {
        var i :| 0 <= i < |history[1..]| && history[1..][i].ipAddress == ip;
        assert history[i + 1].ipAddress == ip;
      }
      if IsKnownIp(ip, history) && history[0].ipAddress != ip {
        var i :| 0 <= i < |history| && history[i].ipAddress == ip;
        assert history[1..][i - 1].ipAddress == ip;
      }
    }
  }

  /** MLPredictor.predictRisk, in hundredths. */
  function PredictRisk(context: SecurityContext, recentHistory: seq<UserBehavior>): (r: int)
    ensures 0 <= r <= MaxPrediction
    ensures recentHistory == [] ==> r == ColdStartRisk
    ensures recentHistory != [] && !IsKnownIp(context.ipAddress, recentHistory) ==> r == 50
    ensures IsKnownIp(context.ipAddress, recentHistory) && RecentAccessCount(context.ipAddress, recentHistory) <= FrequentThreshold ==> r == 10
    ensures RecentAccessCount(context.ipAddress, recentHistory) > FrequentThreshold ==> r == 0
  {
    var isKnownIp := IsKnownIp(context.ipAddress, recentHistory);
    var recentAccessCount := RecentAccessCount(context.ipAddress, recentHistory);
    KnownIffCounted(context.ipAddress, recentHistory);
    if recentHistory == [] then ColdStartRisk
    else
      var base := BaseRisk
        + (if !isKnownIp then NewIpPenalty else 0)
        - (if recentAccessCount > FrequentThreshold then FrequentReduction else 0);
      Clamp(base)
  }

  /** The +0.4 and -0.15 adjustments never apply together. */
  lemma AdjustmentsExclusive(ip: string, history: seq<UserBehavior>)
    ensures !(!IsKnownIp(ip, history) && RecentAccessCount(ip, history) > FrequentThreshold)
  {
    KnownIffCounted(ip, history);
  }

  /** The count of an IP is its multiplicity among the history's IPs. */
  lemma {:induction false} CountIsMultiplicity(ip: string, history: seq<UserBehavior>)
    ensures RecentAccessCount(ip, history) == multiset(IpsOf(history))[ip]
  {
    if history != [] {
      CountIsMultiplicity(ip, history[1..]);
      assert IpsOf(history) == [history[0].ipAddress] + IpsOf(history[1..]);
    }
  }

  /**
   * The prediction depends on the history only through the multiset of its
   * IPs: reordering the history, or changing fields other than the IP,
   * leaves it unchanged.
   */
  lemma PredictionDependsOnIpMultiset(context: SecurityContext, h1: seq<UserBehavior>, h2: seq<UserBehavior>)
    requires multiset(IpsOf(h1)) == multiset(IpsOf(h2))
    ensures PredictRisk(context, h1) == PredictRisk(context, h2)
  {
    var ip := context.ipAddress;
    CountIsMultiplicity(ip, h1);
    CountIsMultiplicity(ip, h2);
    KnownIffCounted(ip, h1);
    KnownIffCounted(ip, h2);
    assert |h1| == |multiset(IpsOf(h1))| == |multiset(IpsOf(h2))| == |h2|;
  }

  /** Permuting the history leaves the prediction unchanged. */
  lemma PredictionPermutationInvariant(context: SecurityContext, h1: seq<UserBehavior>, h2: seq<UserBehavior>)
    requires multiset(h1) == multiset(h2)
    ensures PredictRisk(context, h1) == PredictRisk(context, h2)
  {
    var ip := context.ipAddress;
    CountPermutationInvariant(ip, h1, h2);
    KnownIffCounted(ip, h1);
    KnownIffCounted(ip, h2);
    assert |h1| == |multiset(h1)| == |multiset(h2)| == |h2|;
  }

  lemma {:induction false} CountAppend(ip: string, a: seq<UserBehavior>, b: seq<UserBehavior>)
    ensures RecentAccessCount(ip, a + b) == RecentAccessCount(ip, a) + RecentAccessCount(ip, b)
    decreases |a|
  {
    if a == [] {
      assert a + b == b;
    } else {
      assert (a + b)[1..] == a[1..] + b;
      CountAppend(ip, a[1..], b);
    }
  }

  /** Counting over a sequence is the count of one element plus the count of the rest. */
  lemma CountRemoveAt(ip: string, s: seq<UserBehavior>, j: nat)
    requires j < |s|
    ensures RecentAccessCount(ip, s) ==
              (if s[j].ipAddress == ip then 1 else 0) + RecentAccessCount(ip, s[..j] + s[j + 1..])
  {
    assert s == s[..j] + ([s[j]] + s[j + 1..]);
    CountAppend(ip, s[..j], [s[j]] + s[j + 1..]);
    CountAppend(ip, s[..j], s[j + 1..]);
    assert ([s[j]] + s[j + 1..])[1..] == s[j + 1..];
  }

  lemma {:induction false} CountPermutationInvariant(ip: string, h1: seq<UserBehavior>, h2: seq<UserBehavior>)
    requires multiset(h1) == multiset(h2)
    ensures RecentAccessCount(ip, h1) == RecentAccessCount(ip, h2)
    decreases |h1|
  {
    if h1 == [] {
      assert |h2| == |multiset(h2)| == 0;
    } else {
      var x := h1[0];
      assert x in multiset(h2);
      var j :| 0 <= j < |h2| && h2[j] == x;
      var rest2 := h2[..j] + h2[j + 1..];
      assert h1 == [x] + h1[1..];
      RemoveAtMultiset(h2, j);
      assert multiset(h1) == multiset{x} + multiset(h1[1..]);
      CountPermutationInvariant(ip, h1[1..], rest2);
      CountRemoveAt(ip, h2, j);
    }
  }

  /** Removing the element at `j` removes one occurrence of it from the multiset. */
  lemma RemoveAtMultiset<T>(s: seq<T>, j: nat)
    requires j < |s|
    ensures multiset(s[..j] + s[j + 1..]) == multiset(s) - multiset{s[j]}
  {
    assert s == s[..j] + [s[j]] + s[j + 1..];
  }
}
