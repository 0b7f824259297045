/** Which model gets a request: the first best of the eligible ones, and a better one on escalation. */
module ModelRouters {
  import opened Wrappers

  /** Capabilities are a set of bits; the router looks at six of them. */
  type Capabilities = set<nat>

  const KNOWN_BITS: nat := 6

  datatype ModelInfo = ModelInfo(
    id: string, capabilities: Capabilities, contextLength: U32,
    qualityScore: real, speedScore: real, memoryMb: U32, costScore: real)

  datatype Preference = PreferCheap | PreferQuality | Balanced

  datatype RoutingRequest = RoutingRequest(
    complexity: real, requiredCapabilities: Capabilities, estimatedMemoryMb: U32, contextTokens: U32,
    preference: Preference, escalationRequested: bool, observedQuality: real)

  datatype Decision = Decision(model: string, score: Figure, escalated: bool)

  const QUALITY_THRESHOLD := 0.6
  const COMPLEXITY_THRESHOLD := 0.75
  const MAX_RETRIES: nat := 1

  // ----- figures

  /** What a division yields, which may be one by zero (sections 7.2 and 7.3 of IEEE 754-2019), but for rounding. */
  datatype Figure = Finite(value: real) | Infinite(isPositive: bool) | Undefined

  predicate Positive(f: Figure) {
    match f
    case Finite(value) => 0.0 < value
    case Infinite(isPositive) => isPositive
    case Undefined => false
  }

  predicate AtMostZero(f: Figure) { !f.Undefined? && !Positive(f) }

  /** No comparison with an undefined figure holds. */
  predicate Less(a: Figure, b: Figure) {
    match (a, b)
    case (Finite(x), Finite(y)) => x < y
    case (Finite(_), Infinite(isPositive)) => isPositive
    case (Infinite(isPositive), Finite(_)) => !isPositive
    case (Infinite(left), Infinite(right)) => !left && right
    case _ => false
  }

  function Quotient(x: real, y: real): Figure {
    if y != 0.0 then Finite(x / y) else if x == 0.0 then Undefined else Infinite(0.0 < x)
  }

  function Times(f: Figure, x: real): Figure {
    match f
    case Finite(value) => Finite(value * x)
    case Infinite(isPositive) => if x == 0.0 then Undefined else Infinite(isPositive == (0.0 < x))
    case Undefined => Undefined
  }

  // ----- scoring

  function BitsBelow(n: nat): (bits: set<nat>)
    ensures forall b: nat :: b in bits <==> b < n
  {
    if n == 0 then {} else BitsBelow(n - 1) + {n - 1}
  }

  /** The share of the required known capabilities that is offered; everything, if none is required. */
  function CapabilityMatch(required: Capabilities, offered: Capabilities): real {
    var known := required * BitsBelow(KNOWN_BITS);
    if known == {} then 1.0 else |known * offered| as real / |known| as real
  }

  lemma BitCount(s: set<nat>, n: nat)
    ensures |s * BitsBelow(n + 1)| == |s * BitsBelow(n)| + if n in s then 1 else 0
  {
    assert BitsBelow(n + 1) == BitsBelow(n) + {n};
    if n in s {
      assert s * BitsBelow(n + 1) == s * BitsBelow(n) + {n};
    } else {
      assert s * BitsBelow(n + 1) == s * BitsBelow(n);
    }
  }

  /** capability_match */
  method MatchCapabilities(required: Capabilities, offered: Capabilities) returns (share: real)
    ensures share == CapabilityMatch(required, offered)
  {
    if required == {} {
      return 1.0;
    }
    var matched, count := 0, 0;
    assert required * BitsBelow(0) == {} && required * offered * BitsBelow(0) == {};
    for bit := 0 to KNOWN_BITS
      invariant count == |required * BitsBelow(bit)|
      invariant matched == |required * offered * BitsBelow(bit)|
    {
      BitCount(required, bit);
      BitCount(required * offered, bit);
      if bit !in required {
        continue;
      }
      count := count + 1;
      if bit in offered {
        matched := matched + 1;
      }
    }
    assert required * BitsBelow(KNOWN_BITS) * offered == required * offered * BitsBelow(KNOWN_BITS);
    if count == 0 {
      return 1.0;
    }
    return matched as real / count as real;
  }

  function Max(a: real, b: real): real { if a < b then b else a }

  function PreferenceMultiplier(preference: Preference, m: ModelInfo): real {
    match preference
    case PreferCheap => 1.0 / Max(m.costScore, 0.05)
    case PreferQuality => m.qualityScore
    case Balanced => (m.qualityScore + 1.0 / Max(m.costScore, 0.05)) * 0.5
  }

  /** score_candidate: a model that needs no memory is divided by zero. */
  function Score(m: ModelInfo, r: RoutingRequest): Figure {
    var share := CapabilityMatch(r.requiredCapabilities, m.capabilities);
    if share <= 0.0 then Finite(0.0)
    else if m.contextLength < r.contextTokens then Finite(0.0)
    else if 0 < r.estimatedMemoryMb && r.estimatedMemoryMb < m.memoryMb then Finite(0.0)
    else
      var divisor := Divisor(m, r);
      var base := Quotient(share * m.qualityScore * m.speedScore, m.memoryMb as real / divisor);
      Times(base, PreferenceMultiplier(r.preference, m))
  }

  function Divisor(m: ModelInfo, r: RoutingRequest): (d: real)
    ensures 0.0 < d
  {
    if 0 < r.estimatedMemoryMb then r.estimatedMemoryMb as real
    else if 0 < m.memoryMb then m.memoryMb as real
    else 1.0
  }

  /** The model has something of what is required, enough context, and does not take too much memory. */
  predicate Fits(m: ModelInfo, r: RoutingRequest) {
    && 0.0 < CapabilityMatch(r.requiredCapabilities, m.capabilities)
    && r.contextTokens <= m.contextLength
    && (0 < r.estimatedMemoryMb ==> m.memoryMb <= r.estimatedMemoryMb)
  }

  /** A score that is not at most zero, even an undefined one, means that the model fits. */
  lemma OnlyFittingScores(m: ModelInfo, r: RoutingRequest)
    requires !AtMostZero(Score(m, r))
    ensures Fits(m, r)
  {
  }

  /** With positive quality and speed the score is positive exactly when the model fits, even if it needs no memory. */
  lemma SensibleScore(m: ModelInfo, r: RoutingRequest)
    requires 0.0 < m.qualityScore && 0.0 < m.speedScore
    ensures Positive(Score(m, r)) <==> Fits(m, r)
  {
    hide CapabilityMatch, Divisor;
    var share := CapabilityMatch(r.requiredCapabilities, m.capabilities);
    if 0.0 < share {
      MultiplierPositive(r.preference, m);
      ProductPositive(share, m.qualityScore);
      ProductPositive(share * m.qualityScore, m.speedScore);
      QuotientPositive(share * m.qualityScore * m.speedScore, m.memoryMb as real, Divisor(m, r));
      TimesPositive(Quotient(share * m.qualityScore * m.speedScore, m.memoryMb as real / Divisor(m, r)),
                    PreferenceMultiplier(r.preference, m));
    }
  }

  lemma MultiplierPositive(preference: Preference, m: ModelInfo)
    requires 0.0 < m.qualityScore
    ensures 0.0 < PreferenceMultiplier(preference, m)
  {
    RatioPositive(1.0, Max(m.costScore, 0.05));
  }

  lemma ProductPositive(a: real, b: real)
    requires 0.0 < a && 0.0 < b
    ensures 0.0 < a * b
  {
  }

  lemma RatioPositive(a: real, b: real)
    requires 0.0 < a && 0.0 < b
    ensures 0.0 < a / b
  {
    assert a == (a / b) * b;
  }

  lemma QuotientPositive(x: real, memory: real, divisor: real)
    requires 0.0 < x && 0.0 <= memory && 0.0 < divisor
    ensures Positive(Quotient(x, memory / divisor))
  {
    if memory != 0.0 {
      RatioPositive(memory, divisor);
      RatioPositive(x, memory / divisor);
    }
  }

  lemma TimesPositive(f: Figure, x: real)
    requires Positive(f) && 0.0 < x
    ensures Positive(Times(f, x))
  {
    if f.Finite? {
      ProductPositive(f.value, x);
    }
  }

  // ----- routing

  function Clamp(x: real): real { if x < 0.0 then 0.0 else if 1.0 < x then 1.0 else x }

  predicate MeetsCheapFloor(m: ModelInfo, r: RoutingRequest) {
    r.preference == PreferCheap ==> Clamp(r.complexity) <= m.qualityScore + 0.05
  }

  predicate IsEligible(m: ModelInfo, r: RoutingRequest) {
    Positive(Score(m, r)) && MeetsCheapFloor(m, r)
  }

  /** The index of the first model with the highest score among the eligible ones of the first n. */
  function FirstBest(models: seq<ModelInfo>, r: RoutingRequest, n: nat): (best: Option<nat>)
    requires n <= |models|
    ensures best.Some? ==> best.value < n
  {
    if n == 0 then None
    else
      var best := FirstBest(models, r, n - 1);
      if IsEligible(models[n - 1], r) && (best.None? || Less(Score(models[best.value], r), Score(models[n - 1], r)))
      then Some(n - 1) else best
  }

  /** First among the best: eligible, no eligible one scores higher, and no earlier one as high. */
  lemma {:induction false} FirstBestIsFirstBest(models: seq<ModelInfo>, r: RoutingRequest, n: nat)
    requires n <= |models|
    ensures var best := FirstBest(models, r, n);
            && (best.None? <==> forall i :: 0 <= i < n ==> !IsEligible(models[i], r))
            && (best.Some? ==>
                  && IsEligible(models[best.value], r)
                  && (forall i :: 0 <= i < n && IsEligible(models[i], r) ==>
                                    !Less(Score(models[best.value], r), Score(models[i], r)))
                  && (forall i :: 0 <= i < best.value && IsEligible(models[i], r) ==>
                                    Less(Score(models[i], r), Score(models[best.value], r))))
  {
    hide Score, MeetsCheapFloor;
    if 0 < n {
      FirstBestIsFirstBest(models, r, n - 1);
    }
  }

  const FALLBACK := Decision("main-reasoner", Finite(0.0), false)

  /** find: the first model of that id. */
  function Lookup(models: seq<ModelInfo>, id: string): (m: Option<ModelInfo>)
    ensures m.Some? ==> m.value in models && m.value.id == id
  {
    if models == [] then None else if models[0].id == id then Some(models[0]) else Lookup(models[1..], id)
  }

  function CurrentQuality(models: seq<ModelInfo>, current: string): real {
    if Lookup(models, current).Some? then Lookup(models, current).value.qualityScore else 0.0
  }

  predicate IsCandidate(m: ModelInfo, r: RoutingRequest, current: string) {
    m.id != current && !AtMostZero(Score(m, r))
  }

  /** The index of the first model of the highest quality above `floor` among the first n candidates. */
  function BestQuality(models: seq<ModelInfo>, r: RoutingRequest, current: string, floor: real,
                       n: nat): (best: Option<nat>)
    requires n <= |models|
    ensures best.Some? ==> best.value < n
  {
    if n == 0 then None
    else
      var best := BestQuality(models, r, current, floor, n - 1);
      var quality := if best.Some? then models[best.value].qualityScore else floor;
      if IsCandidate(models[n - 1], r, current) && quality < models[n - 1].qualityScore then Some(n - 1) else best
  }

  lemma {:induction false} BestQualityIsMaximal(models: seq<ModelInfo>, r: RoutingRequest, current: string,
                                                floor: real, n: nat)
    requires n <= |models|
    ensures var best := BestQuality(models, r, current, floor, n);
            && (best.Some? ==> IsCandidate(models[best.value], r, current) && floor < models[best.value].qualityScore)
            && (best.Some? ==> forall i :: 0 <= i < best.value && IsCandidate(models[i], r, current) ==>
                                             models[i].qualityScore < models[best.value].qualityScore)
            && (forall i :: 0 <= i < n && IsCandidate(models[i], r, current) ==>
                              models[i].qualityScore <= if best.Some? then models[best.value].qualityScore else floor)
  {
    hide IsCandidate;
    if 0 < n {
      BestQualityIsMaximal(models, r, current, floor, n - 1);
    }
  }

  predicate NothingToEscalate(r: RoutingRequest, retryCount: nat) {
    || (MAX_RETRIES <= retryCount && QUALITY_THRESHOLD <= r.observedQuality && r.complexity < COMPLEXITY_THRESHOLD)
    || (!(r.observedQuality < QUALITY_THRESHOLD) && !(COMPLEXITY_THRESHOLD <= r.complexity) && !r.escalationRequested)
  }

  /** The index of the model a request is escalated to. */
  function Escalated(models: seq<ModelInfo>, r: RoutingRequest, current: string, retryCount: nat): (k: Option<nat>)
    ensures k.Some? ==> k.value < |models|
  {
    if NothingToEscalate(r, retryCount) then None
    else BestQuality(models, r, current, CurrentQuality(models, current), |models|)
  }

  function Escalation(models: seq<ModelInfo>, r: RoutingRequest, current: string, retryCount: nat): Option<Decision> {
    var k := Escalated(models, r, current, retryCount);
    if k.None? then None else Some(Decision(models[k.value].id, Score(models[k.value], r), true))
  }

  /** Before escalation; a winner without an id counts as none. */
  function Selection(models: seq<ModelInfo>, r: RoutingRequest): (k: Option<nat>)
    ensures k.Some? ==> k.value < |models|
  {
    var best := FirstBest(models, r, |models|);
    if best.Some? && models[best.value].id != "" then best else None
  }

  function Route(models: seq<ModelInfo>, r: RoutingRequest): Decision {
    var best := Selection(models, r);
    if best.None? then FALLBACK
    else
      var chosen := models[best.value];
      var escalated := if r.escalationRequested then Escalation(models, r, chosen.id, 0) else None;
      if escalated.Some? then escalated.value else Decision(chosen.id, Score(chosen, r), false)
  }

  // ----- properties

  predicate UniqueIds(models: seq<ModelInfo>) {
    forall i, j :: 0 <= i < j < |models| ==> models[i].id != models[j].id
  }

  lemma {:induction false} LookupUnique(models: seq<ModelInfo>, k: nat)
    requires UniqueIds(models) && k < |models|
    ensures Lookup(models, models[k].id) == Some(models[k])
    decreases |models|
  {
    if 0 < k {
      LookupUnique(models[1..], k - 1);
    }
  }

  /**
   * Without escalation the first best of the eligible models is chosen, whenever there is one. If it has no id, the
   * fallback is chosen as if there were none.
   */
  lemma RouteChoosesFirstBest(models: seq<ModelInfo>, r: RoutingRequest)
    requires !r.escalationRequested
    ensures (exists k :: 0 <= k < |models| && IsFirstBest(models, r, k)) <==>
            (exists i :: 0 <= i < |models| && IsEligible(models[i], r))
    ensures forall k :: 0 <= k < |models| && IsFirstBest(models, r, k) ==>
                          Route(models, r) == if models[k].id == "" then FALLBACK
                                              else Decision(models[k].id, Score(models[k], r), false)
    ensures (forall i :: 0 <= i < |models| ==> !IsEligible(models[i], r)) ==> Route(models, r) == FALLBACK
  {
    hide IsEligible, Score;
    FirstBestIsFirstBest(models, r, |models|);
    var best := FirstBest(models, r, |models|);
    assert best.Some? ==> IsFirstBest(models, r, best.value);
    forall k | 0 <= k < |models| && IsFirstBest(models, r, k) ensures best == Some(k) {
      OnlyOneFirstBest(models, r, best.value, k);
    }
  }

  lemma OnlyOneFirstBest(models: seq<ModelInfo>, r: RoutingRequest, j: nat, k: nat)
    requires j < |models| && k < |models|
    requires IsFirstBest(models, r, j) && IsFirstBest(models, r, k)
    ensures j == k
  {
    hide Score, Less, IsEligible;
  }

  ghost predicate IsFirstBest(models: seq<ModelInfo>, r: RoutingRequest, k: nat) {
    && k < |models| && IsEligible(models[k], r)
    && (forall i :: 0 <= i < |models| && IsEligible(models[i], r) ==> !Less(Score(models[k], r), Score(models[i], r)))
    && (forall i :: 0 <= i < k && IsEligible(models[i], r) ==> Less(Score(models[i], r), Score(models[k], r)))
  }

  /** Every decision but the fallback leads to a model that fits the request, escalated or not. */
  lemma RouteMeetsLimits(models: seq<ModelInfo>, r: RoutingRequest)
    requires Selection(models, r).Some?
    ensures exists k :: 0 <= k < |models| && Fits(models[k], r)
                        && Route(models, r) == Decision(models[k].id, Score(models[k], r), Route(models, r).escalated)
  {
    hide Score, Fits;
    FirstBestIsFirstBest(models, r, |models|);
    var k := Selection(models, r).value;
    OnlyFittingScores(models[k], r);
    var next := Escalated(models, r, models[k].id, 0);
    if r.escalationRequested && next.Some? {
      BestQualityIsMaximal(models, r, models[k].id, CurrentQuality(models, models[k].id), |models|);
      OnlyFittingScores(models[next.value], r);
    }
  }

  /**
   * The quality floor of cheap requests. A model chosen without escalation is above it. One chosen by escalation is
   * above it exactly when some candidate for escalation is.
   */
  lemma FloorAfterEscalation(models: seq<ModelInfo>, r: RoutingRequest)
    requires Selection(models, r).Some?
    ensures var chosen := models[Selection(models, r).value];
            var next := Escalated(models, r, chosen.id, 0);
            if !r.escalationRequested || next.None?
            then Route(models, r).model == chosen.id && MeetsCheapFloor(chosen, r)
            else
              && Route(models, r).model == models[next.value].id
              && (MeetsCheapFloor(models[next.value], r) <==>
                    exists i ::
                      0 <= i < |models| && IsCandidate(models[i], r, chosen.id) && MeetsCheapFloor(models[i], r))
  {
    hide Score;
    FirstBestIsFirstBest(models, r, |models|);
    var id := models[Selection(models, r).value].id;
    BestQualityIsMaximal(models, r, id, CurrentQuality(models, id), |models|);
  }

  /** With unique ids every decision but the fallback is above the floor. */
  lemma UniqueIdsKeepFloor(models: seq<ModelInfo>, r: RoutingRequest)
    requires UniqueIds(models) && Selection(models, r).Some?
    ensures exists k :: 0 <= k < |models| && models[k].id == Route(models, r).model && MeetsCheapFloor(models[k], r)
  {
    hide Score;
    FirstBestIsFirstBest(models, r, |models|);
    var k := Selection(models, r).value;
    LookupUnique(models, k);
    BestQualityIsMaximal(models, r, models[k].id, models[k].qualityScore, |models|);
  }

  function SomeModel(id: string, quality: real): ModelInfo {
    ModelInfo(id, {}, 1, quality, 1.0, 1, 1.0)
  }

  const TWO_OF_A_NAME := [SomeModel("x", 0.1), SomeModel("x", 0.9), SomeModel("y", 0.2)]
  const CHEAP_REQUEST := RoutingRequest(0.8, {}, 0, 1, PreferCheap, true, 1.0)

  /** Escalation looks the quality up by id: it can lead from a good model to a worse one, below the floor. */
  lemma EscalationBelowFloor()
    ensures Selection(TWO_OF_A_NAME, CHEAP_REQUEST) == Some(1)
    ensures Route(TWO_OF_A_NAME, CHEAP_REQUEST).model == "y" && Route(TWO_OF_A_NAME, CHEAP_REQUEST).escalated
    ensures !MeetsCheapFloor(SomeModel("y", 0.2), CHEAP_REQUEST)
  {
    hide Score;
    var models, r := TWO_OF_A_NAME, CHEAP_REQUEST;
    forall i | 0 <= i < 3 ensures Positive(Score(models[i], r)) {
      SensibleScore(models[i], r);
    }
    FirstBestIsFirstBest(models, r, 3);
    assert IsEligible(models[1], r) && !IsEligible(models[0], r) && !IsEligible(models[2], r);
    BestQualityIsMaximal(models, r, "x", 0.1, 3);
    assert IsCandidate(models[2], r, "x");
  }

  /** There is an escalation exactly when it is asked for and a better model fits the request. */
  lemma EscalationExactly(models: seq<ModelInfo>, r: RoutingRequest, current: string, retryCount: nat)
    ensures Escalation(models, r, current, retryCount).Some? <==>
            && !NothingToEscalate(r, retryCount)
            && exists i :: 0 <= i < |models| && IsCandidate(models[i], r, current)
                           && CurrentQuality(models, current) < models[i].qualityScore
  {
    hide IsCandidate, NothingToEscalate, CurrentQuality;
    BestQualityIsMaximal(models, r, current, CurrentQuality(models, current), |models|);
  }

  /**
   * Escalation leads to a strictly better model, the first of those that no other model the request could get is
   * better than.
   */
  lemma EscalationImproves(models: seq<ModelInfo>, r: RoutingRequest, current: string, retryCount: nat)
    requires Escalation(models, r, current, retryCount).Some?
    ensures var d := Escalation(models, r, current, retryCount).value;
            exists k :: 0 <= k < |models| && d == Decision(models[k].id, Score(models[k], r), true)
                        && models[k].id != current && CurrentQuality(models, current) < models[k].qualityScore
                        && (forall i :: 0 <= i < |models| && IsCandidate(models[i], r, current) ==>
                                          models[i].qualityScore <= models[k].qualityScore)
                        && (forall i :: 0 <= i < k && IsCandidate(models[i], r, current) ==>
                                          models[i].qualityScore < models[k].qualityScore)
  {
    BestQualityIsMaximal(models, r, current, CurrentQuality(models, current), |models|);
    var k := BestQuality(models, r, current, CurrentQuality(models, current), |models|).value;
    assert IsCandidate(models[k], r, current);
  }

  /** With unique ids, there is no escalating twice. */
  lemma NoSecondEscalation(models: seq<ModelInfo>, r: RoutingRequest, current: string, retryCount: nat,
                           secondRetryCount: nat)
    requires UniqueIds(models) && Escalation(models, r, current, retryCount).Some?
    ensures Escalation(models, r, Escalation(models, r, current, retryCount).value.model, secondRetryCount) == None
  {
    hide Score, IsCandidate, MeetsCheapFloor, NothingToEscalate;
    var floor := CurrentQuality(models, current);
    BestQualityIsMaximal(models, r, current, floor, |models|);
    var k := BestQuality(models, r, current, floor, |models|).value;
    var next := models[k].id;
    LookupUnique(models, k);
    BestQualityIsMaximal(models, r, next, models[k].qualityScore, |models|);
    var second := BestQuality(models, r, next, models[k].qualityScore, |models|);
    if second.Some? {
      var m := models[second.value];
      CandidateForBoth(m, r, current, next);
      if m.id == current {
        LookupUnique(models, second.value);
      }
    }
  }

  lemma CandidateForBoth(m: ModelInfo, r: RoutingRequest, current: string, next: string)
    requires IsCandidate(m, r, next)
    ensures m.id == current || IsCandidate(m, r, current)
  {
  }

  // ----- the loops

  /** The registered models, and the loops over them that keep the best so far. */
  class ModelRouter {
    const models: seq<ModelInfo>

    constructor (models: seq<ModelInfo>)
      ensures this.models == models
    {
      this.models := models;
    }

    /** find */
    method Find(id: string) returns (m: Option<ModelInfo>)
      ensures m == Lookup(models, id)
    {
      var k := 0;
      assert models[0..] == models;
      while k < |models|
        invariant k <= |models|
        invariant Lookup(models[k..], id) == Lookup(models, id)
      {
        assert models[k..][0] == models[k] && models[k..][1..] == models[k + 1..];
        if models[k].id == id {
          return Some(models[k]);
        }
        k := k + 1;
      }
      return None;
    }

    /** route */
    method RouteRequest(r: RoutingRequest) returns (decision: Decision)
      ensures decision == Route(models, r)
    {
      hide Score, MeetsCheapFloor, Escalation;
      decision := Decision("", Finite(0.0), false);
      var bestScore := Finite(-1.0);
      for k := 0 to |models|
        invariant var best := FirstBest(models, r, k);
                  if best.None? then bestScore == Finite(-1.0) && decision == Decision("", Finite(0.0), false)
                  else bestScore == Score(models[best.value], r) && Positive(bestScore)
                       && decision == Decision(models[best.value].id, bestScore, false)
      {
        var candidate := models[k];
        var score := Score(candidate, r);
        if AtMostZero(score) {
          continue;
        }
        if !MeetsCheapFloor(candidate, r) {
          continue;
        }
        if Less(bestScore, score) {
          bestScore := score;
          decision := decision.(model := candidate.id, score := score);
        }
      }
      if decision.model == "" {
        decision := FALLBACK;
        return;
      }
      if r.escalationRequested {
        var escalated := CheckEscalation(r, decision.model, 0);
        if escalated.Some? {
          decision := escalated.value;
          return;
        }
      }
    }

    /** check_escalation */
    method CheckEscalation(r: RoutingRequest, current: string, retryCount: nat) returns (decision: Option<Decision>)
      ensures decision == Escalation(models, r, current, retryCount)
    {
      hide Score;
      if NothingToEscalate(r, retryCount) {
        return None;
      }
      var currentModel := Find(current);
      var best: Option<nat> := None;
      var floor := if currentModel.Some? then currentModel.value.qualityScore else 0.0;
      var bestQuality := floor;
      for k := 0 to |models|
        invariant best == BestQuality(models, r, current, floor, k)
        invariant bestQuality == if best.Some? then models[best.value].qualityScore else floor
      {
        var candidate := models[k];
        if candidate.id == current {
          continue;
        }
        if AtMostZero(Score(candidate, r)) {
          continue;
        }
        if candidate.qualityScore <= bestQuality {
          continue;
        }
        bestQuality := candidate.qualityScore;
        best := Some(k);
      }
      if best.None? {
        return None;
      }
      return Some(Decision(models[best.value].id, Score(models[best.value], r), true));
    }
  }
}
