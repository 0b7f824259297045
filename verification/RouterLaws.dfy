/** How the router orders models by their figures, and what a request is escalated for. */
module RouterLaws {
  import opened Wrappers
  import opened ModelRouters

  // ----- figures

  predicate HasFigures(m: ModelInfo) {
    0.0 < m.qualityScore && 0.0 < m.speedScore && 0 < m.memoryMb
  }

  /** The cost, but at least 0.05. */
  function Cost(m: ModelInfo): real { if m.costScore < 0.05 then 0.05 else m.costScore }

  /** The memory counts if the request estimates what it needs. */
  function Weight(m: ModelInfo, r: RoutingRequest): real {
    if r.estimatedMemoryMb == 0 then 1.0 else m.memoryMb as real
  }

  function Share(m: ModelInfo, r: RoutingRequest): real { CapabilityMatch(r.requiredCapabilities, m.capabilities) }

  /** What speaks for a model. */
  function Merit(m: ModelInfo, r: RoutingRequest): real {
    Share(m, r) * m.qualityScore * m.speedScore * Factor(m, r)
  }

  function Factor(m: ModelInfo, r: RoutingRequest): real {
    match r.preference
    case PreferCheap => 1.0
    case PreferQuality => m.qualityScore
    case Balanced => m.qualityScore * Cost(m) + 1.0
  }

  /** What speaks against it. */
  function Burden(m: ModelInfo, r: RoutingRequest): real {
    if r.preference == PreferQuality then Weight(m, r) else Weight(m, r) * Cost(m)
  }

  /** It has something of what is required, the context is long enough, and it is not too large. */
  predicate IsFit(m: ModelInfo, r: RoutingRequest) {
    && 0.0 < Share(m, r) && r.contextTokens <= m.contextLength
    && (r.estimatedMemoryMb == 0 || m.memoryMb <= r.estimatedMemoryMb)
  }

  /** For a cheap request it is good enough for what it has to do, to within 0.05. */
  predicate IsGoodEnough(m: ModelInfo, r: RoutingRequest) {
    r.preference == PreferCheap ==>
      0.0 <= m.qualityScore + 0.05 && (1.0 <= m.qualityScore + 0.05 || r.complexity <= m.qualityScore + 0.05)
  }

  /** The share of required capabilities among the six that are known; everything, if none is required. */
  lemma ShareLaw(m: ModelInfo, r: RoutingRequest)
    ensures var known := r.requiredCapabilities * {0, 1, 2, 3, 4, 5};
            if known == {} then Share(m, r) == 1.0
            else Share(m, r) * |known| as real == |known * m.capabilities| as real
  {
    hide BitsBelow;
    FirstSixBits();
    var known := r.requiredCapabilities * {0, 1, 2, 3, 4, 5};
    if known != {} {
      RatioTimes(|known * m.capabilities|, |known|);
    }
  }

  lemma FirstSixBits()
    ensures BitsBelow(KNOWN_BITS) == {0, 1, 2, 3, 4, 5}
  {
    hide BitsBelow;
    forall b: nat ensures b in BitsBelow(KNOWN_BITS) <==> b in {0, 1, 2, 3, 4, 5} {
    }
  }

  lemma RatioTimes(a: nat, b: nat)
    requires 0 < b
    ensures a as real / b as real * b as real == a as real
  {
  }

  // ----- the value of a score

  lemma RatioOfRatio(x: real, memory: real, estimate: real)
    requires 0.0 < memory && 0.0 < estimate
    ensures memory / estimate != 0.0 && x / (memory / estimate) * memory == x * estimate
  {
    var y := memory / estimate;
    assert y * estimate == memory;
    assert y != 0.0;
    var z := x / y;
    assert z * y == x;
    assert z * (y * estimate) == (z * y) * estimate;
  }

  lemma ProductOfRatios(a: real, b: real, p: real, q: real, x: real, y: real)
    requires a * p == x && b * q == y
    ensures (a * b) * (p * q) == x * y
  {
    assert (a * b) * (p * q) == (a * p) * (b * q);
  }

  /** What a model is worth, before the preference is applied, times its weight. */
  lemma BaseLaw(m: ModelInfo, r: RoutingRequest)
    requires HasFigures(m)
    ensures var x := Share(m, r) * m.qualityScore * m.speedScore;
            var base := Quotient(x, m.memoryMb as real / Divisor(m, r));
            && base.Finite?
            && base.value * Weight(m, r) == x * if r.estimatedMemoryMb == 0 then 1.0 else r.estimatedMemoryMb as real
  {
    hide CapabilityMatch, Share;
    var x := Share(m, r) * m.qualityScore * m.speedScore;
    RatioOfRatio(x, m.memoryMb as real, Divisor(m, r));
    if r.estimatedMemoryMb == 0 {
      Cancelled(x / (m.memoryMb as real / Divisor(m, r)), x, m.memoryMb as real);
    }
  }

  lemma Cancelled(a: real, b: real, c: real)
    requires 0.0 < c && a * c == b * c
    ensures a == b
  {
    assert (a - b) * c == 0.0;
  }

  /** What the preference makes of it, times what it is to be divided by. */
  lemma PreferenceLaw(m: ModelInfo, r: RoutingRequest)
    ensures var f := PreferenceMultiplier(r.preference, m);
            match r.preference
            case PreferCheap => f * Cost(m) == 1.0
            case PreferQuality => f * 1.0 == m.qualityScore
            case Balanced => f * Cost(m) == (m.qualityScore * Cost(m) + 1.0) * 0.5
  {
    var c := Cost(m);
    assert Max(m.costScore, 0.05) == c;
    assert (1.0 / c) * c == 1.0;
    if r.preference == Balanced {
      assert (m.qualityScore + 1.0 / c) * 0.5 * c == (m.qualityScore * c + (1.0 / c) * c) * 0.5;
    }
  }

  /** The factor by which all scores of a request are stretched. */
  function Scale(r: RoutingRequest): real {
    (if r.estimatedMemoryMb == 0 then 1.0 else r.estimatedMemoryMb as real)
    * (if r.preference == Balanced then 0.5 else 1.0)
  }

  lemma ScoreIsProduct(m: ModelInfo, r: RoutingRequest)
    requires HasFigures(m)
    ensures var base := Quotient(Share(m, r) * m.qualityScore * m.speedScore, m.memoryMb as real / Divisor(m, r));
            && base.Finite?
            && Score(m, r) ==
               if IsFit(m, r) then Finite(base.value * PreferenceMultiplier(r.preference, m)) else Finite(0.0)
  {
    hide CapabilityMatch, PreferenceMultiplier;
    BaseLaw(m, r);
    var share := CapabilityMatch(r.requiredCapabilities, m.capabilities);
    assert IsFit(m, r) <==> 0.0 < share && r.contextTokens <= m.contextLength &&
                            (r.estimatedMemoryMb == 0 || m.memoryMb <= r.estimatedMemoryMb);
    if IsFit(m, r) {
      var base := Quotient(share * m.qualityScore * m.speedScore, m.memoryMb as real / Divisor(m, r));
      assert Score(m, r) == Times(base, PreferenceMultiplier(r.preference, m));
    }
  }

  /** A score times what speaks against a model is what speaks for it, but for the scale. */
  lemma ScoreLaw(m: ModelInfo, r: RoutingRequest)
    requires HasFigures(m)
    ensures if IsFit(m, r) then Score(m, r).Finite? && Score(m, r).value * Burden(m, r) == Merit(m, r) * Scale(r)
            else Score(m, r) == Finite(0.0)
  {
    hide Share, Divisor, Quotient, PreferenceMultiplier, Cost, Weight, Score, IsFit;
    ScoreIsProduct(m, r);
    BaseLaw(m, r);
    PreferenceLaw(m, r);
    if IsFit(m, r) {
      var x := Share(m, r) * m.qualityScore * m.speedScore;
      var e: real := if r.estimatedMemoryMb == 0 then 1.0 else r.estimatedMemoryMb as real;
      var base := Quotient(x, m.memoryMb as real / Divisor(m, r)).value;
      var f := PreferenceMultiplier(r.preference, m);
      match r.preference
      case PreferCheap =>
        ProductOfRatios(base, f, Weight(m, r), Cost(m), x * e, 1.0);
        Exchange(x, e, 1.0);
      case PreferQuality =>
        ProductOfRatios(base, f, Weight(m, r), 1.0, x * e, m.qualityScore);
        Exchange(x, e, m.qualityScore);
      case Balanced =>
        ProductOfRatios(base, f, Weight(m, r), Cost(m), x * e, (m.qualityScore * Cost(m) + 1.0) * 0.5);
        Halved(x, e, m.qualityScore * Cost(m) + 1.0);
    }
  }

  lemma Exchange(x: real, e: real, y: real)
    ensures x * e * y == (x * y) * (e * 1.0)
  {
    assert x * e * y == x * y * e;
  }

  lemma Halved(x: real, e: real, y: real)
    ensures (x * e) * (y * 0.5) == (x * y) * (e * 0.5)
  {
    assert (x * e) * (y * 0.5) == (x * (y * 0.5)) * e;
    assert x * (y * 0.5) == (x * y) * 0.5;
  }

  // ----- models that need no memory

  lemma SignOfProduct(f: real, c: real, x: real)
    requires 0.0 < c && f * c == x
    ensures (f == 0.0 <==> x == 0.0) && (0.0 < f <==> 0.0 < x)
  {
    if 0.0 < f {
      ProductPositive(f, c);
    } else if f < 0.0 {
      ProductPositive(-f, c);
    }
  }

  /** The score of a model without memory is as large or as small as can be, or undefined if something is zero. */
  lemma WeightlessLaw(m: ModelInfo, r: RoutingRequest)
    requires m.memoryMb == 0 && IsFit(m, r)
    ensures var x := Share(m, r) * m.qualityScore * m.speedScore;
            Score(m, r) ==
            if x == 0.0 || Factor(m, r) == 0.0 then Undefined else Infinite((0.0 < x) == (0.0 < Factor(m, r)))
  {
    hide CapabilityMatch, PreferenceMultiplier;
    PreferenceLaw(m, r);
    var f := PreferenceMultiplier(r.preference, m);
    match r.preference
    case PreferCheap => SignOfProduct(f, Cost(m), 1.0);
    case PreferQuality => SignOfProduct(f, 1.0, m.qualityScore);
    case Balanced =>
      SignOfProduct(f, Cost(m), (m.qualityScore * Cost(m) + 1.0) * 0.5);
      SignOfProduct(m.qualityScore * Cost(m) + 1.0, 0.5, (m.qualityScore * Cost(m) + 1.0) * 0.5);
  }

  // ----- the order of models

  lemma ProductPositive4(a: real, b: real, c: real, d: real)
    requires 0.0 < a && 0.0 < b && 0.0 < c && 0.0 < d
    ensures 0.0 < a * b * c * d && 0.0 < a * b
  {
    ProductPositive(a, b);
    ProductPositive(a * b, c);
    ProductPositive(a * b * c, d);
  }

  lemma PositiveParts(m: ModelInfo, r: RoutingRequest)
    requires HasFigures(m) && IsFit(m, r)
    ensures 0.0 < Merit(m, r) && 0.0 < Burden(m, r) && 0.0 < Scale(r)
  {
    hide Share;
    ProductPositive(m.qualityScore, Cost(m));
    ProductPositive4(Share(m, r), m.qualityScore, m.speedScore, Factor(m, r));
    ProductPositive(Weight(m, r), Cost(m));
  }

  lemma SmallerTimes(a: real, b: real, k: real)
    requires 0.0 < k
    ensures a < b <==> a * k < b * k
  {
    if a < b {
      ProductPositive(b - a, k);
    } else if b < a {
      ProductPositive(a - b, k);
    }
  }

  /** Values are compared by what they are multiples of. */
  lemma Compared(u: real, v: real, a: real, b: real, p: real, q: real, s: real)
    requires u * a == p * s && v * b == q * s && 0.0 < a && 0.0 < b && 0.0 < s
    ensures u < v <==> p * b < q * a
  {
    ProductPositive(a, b);
    SmallerTimes(u, v, a * b);
    assert u * (a * b) == (p * b) * s by { assert u * (a * b) == (u * a) * b; assert (p * s) * b == (p * b) * s; }
    assert v * (a * b) == (q * a) * s by { assert v * (a * b) == (v * b) * a; assert (q * s) * a == (q * a) * s; }
    SmallerTimes(p * b, q * a, s);
  }

  /** Of two models that fit, the one with more merit for its burden scores higher. */
  lemma OrderLaw(a: ModelInfo, b: ModelInfo, r: RoutingRequest)
    requires HasFigures(a) && HasFigures(b) && IsFit(a, r) && IsFit(b, r)
    ensures Less(Score(a, r), Score(b, r)) <==> Merit(a, r) * Burden(b, r) < Merit(b, r) * Burden(a, r)
    ensures Positive(Score(a, r))
  {
    hide Score, Merit, Burden, Scale, HasFigures, IsFit;
    ScoreLaw(a, r);
    ScoreLaw(b, r);
    PositiveParts(a, r);
    PositiveParts(b, r);
    Compared(Score(a, r).value, Score(b, r).value, Burden(a, r), Burden(b, r), Merit(a, r), Merit(b, r), Scale(r));
    Compared(0.0, Score(a, r).value, Burden(a, r), Burden(a, r), 0.0, Merit(a, r), Scale(r));
    ProductPositive(Merit(a, r), Burden(a, r));
  }

  // ----- what is routed

  /** More merit for its burden; cross-multiplied. */
  predicate Beats(a: ModelInfo, b: ModelInfo, r: RoutingRequest) {
    Merit(b, r) * Burden(a, r) < Merit(a, r) * Burden(b, r)
  }

  /** Merit for burden, to scale. */
  predicate IsScoreOf(f: Figure, m: ModelInfo, r: RoutingRequest) {
    f.Finite? && f.value * Burden(m, r) == Merit(m, r) * Scale(r)
  }

  predicate IsChoice(m: ModelInfo, r: RoutingRequest) { IsFit(m, r) && IsGoodEnough(m, r) }

  /** The first of the choices that no choice beats. */
  ghost predicate IsWinner(models: seq<ModelInfo>, r: RoutingRequest, k: nat) {
    && k < |models| && IsChoice(models[k], r)
    && (forall i :: 0 <= i < |models| && IsChoice(models[i], r) ==> !Beats(models[i], models[k], r))
    && (forall i :: 0 <= i < k && IsChoice(models[i], r) ==> Beats(models[k], models[i], r))
  }

  lemma ChoicesAreEligible(m: ModelInfo, r: RoutingRequest)
    requires HasFigures(m)
    ensures IsEligible(m, r) <==> IsChoice(m, r)
  {
    hide Score, Merit, Burden, Scale, Share;
    ScoreLaw(m, r);
    if IsFit(m, r) {
      OrderLaw(m, m, r);
    }
  }

  /**
   * Without escalation a request is routed to the winner, with a score that is its merit for its burden, to scale.
   * If no model is a choice, or the winner has no id, it is routed to main-reasoner with score zero.
   */
  lemma RouteLaw(models: seq<ModelInfo>, r: RoutingRequest)
    requires !r.escalationRequested && forall i :: 0 <= i < |models| ==> HasFigures(models[i])
    ensures var d := Route(models, r);
            || (d == Decision("main-reasoner", Finite(0.0), false)
                && forall i :: 0 <= i < |models| ==> !IsChoice(models[i], r))
            || exists k :: 0 <= k < |models| && IsWinner(models, r, k) &&
                           if models[k].id == "" then d == Decision("main-reasoner", Finite(0.0), false)
                           else d.model == models[k].id && !d.escalated && IsScoreOf(d.score, models[k], r)
  {
    hide Score, Beats, IsScoreOf, IsFit, IsGoodEnough, IsEligible, HasFigures, IsChoice, Less;
    FirstBestIsFirstBest(models, r, |models|);
    forall i | 0 <= i < |models| ensures IsEligible(models[i], r) <==> IsChoice(models[i], r) {
      ChoicesAreEligible(models[i], r);
    }
    var best := FirstBest(models, r, |models|);
    if best.Some? {
      var k := best.value;
      forall i | 0 <= i < |models| && IsChoice(models[i], r)
        ensures Less(Score(models[i], r), Score(models[k], r)) <==> Beats(models[k], models[i], r)
        ensures Less(Score(models[k], r), Score(models[i], r)) <==> Beats(models[i], models[k], r)
      {
        ScoresTell(models[i], models[k], r);
      }
      assert IsWinner(models, r, k);
      ScoresTell(models[k], models[k], r);
    }
  }

  lemma ScoresTell(a: ModelInfo, b: ModelInfo, r: RoutingRequest)
    requires HasFigures(a) && HasFigures(b) && IsChoice(a, r) && IsChoice(b, r)
    ensures Less(Score(a, r), Score(b, r)) <==> Beats(b, a, r)
    ensures Less(Score(b, r), Score(a, r)) <==> Beats(a, b, r)
    ensures IsScoreOf(Score(a, r), a, r)
  {
    hide Score, Merit, Burden, Scale, IsFit, IsGoodEnough, HasFigures, Less;
    OrderLaw(a, b, r);
    OrderLaw(b, a, r);
    ScoreLaw(a, r);
  }

  // ----- better figures never lose

  /** At least as able, good and fast, at most as large and dear. */
  predicate IsNoWorse(a: ModelInfo, b: ModelInfo) {
    && a.capabilities == b.capabilities && b.contextLength <= a.contextLength
    && b.qualityScore <= a.qualityScore && b.speedScore <= a.speedScore
    && a.memoryMb <= b.memoryMb && a.costScore <= b.costScore
  }

  lemma LargerTimes(a: real, b: real, c: real, d: real)
    requires 0.0 <= a <= b && 0.0 <= c <= d
    ensures a * c <= b * d
  {
    assert b * d - a * c == (b - a) * d + a * (d - c);
    assert 0.0 <= (b - a) * d && 0.0 <= a * (d - c);
  }

  /** A model that is no worse than a choice is a choice, and not beaten by it, whatever the preference. */
  lemma NoWorseNeverLoses(a: ModelInfo, b: ModelInfo, r: RoutingRequest)
    requires HasFigures(a) && HasFigures(b) && IsNoWorse(a, b) && IsChoice(b, r)
    ensures IsChoice(a, r) && !Beats(b, a, r)
  {
    hide Share, Factor, Weight, Cost, IsFit;
    SameShare(a, b, r);
    NoWorseIsChoice(a, b, r);
    NoWorseFactor(a, b, r);
    var s, qa, qb := Share(b, r), a.qualityScore, b.qualityScore;
    ProductPositive(s, qb);
    ProductPositive(s * qb, b.speedScore);
    LargerTimes(s, s, qb, qa);
    LargerTimes(s * qb, s * qa, b.speedScore, a.speedScore);
    var x, y := s * qb * b.speedScore, s * qa * a.speedScore;
    if r.preference == PreferQuality {
      GoodNeverLoses(x, y, Weight(a, r), Weight(b, r), Factor(a, r), Factor(b, r));
    } else {
      CheapNeverLoses(x, y, Weight(a, r), Weight(b, r), Factor(a, r), Factor(b, r), Cost(a), Cost(b));
    }
  }

  lemma NoWorseIsChoice(a: ModelInfo, b: ModelInfo, r: RoutingRequest)
    requires HasFigures(a) && HasFigures(b) && IsNoWorse(a, b) && IsChoice(b, r)
    ensures IsChoice(a, r) && 0.0 < Share(b, r)
    ensures 0.0 < Weight(a, r) <= Weight(b, r) && 0.0 < Cost(a) <= Cost(b)
  {
    hide Share;
    SameShare(a, b, r);
  }

  lemma NoWorseFactor(a: ModelInfo, b: ModelInfo, r: RoutingRequest)
    requires HasFigures(a) && HasFigures(b) && IsNoWorse(a, b)
    ensures 0.0 < Factor(b, r)
    ensures if r.preference == PreferQuality then Factor(b, r) <= Factor(a, r)
            else Factor(b, r) * Cost(a) <= Factor(a, r) * Cost(b)
  {
    ProductPositive(b.qualityScore, Cost(b));
    BalancedFactor(a.qualityScore, b.qualityScore, Cost(a), Cost(b));
  }

  lemma GoodNeverLoses(x: real, y: real, wa: real, wb: real, fa: real, fb: real)
    requires 0.0 < x <= y && 0.0 < wa <= wb && 0.0 < fb <= fa
    ensures x * fb * wa <= y * fa * wb
  {
    ProductPositive(x, fb);
    LargerTimes(x, y, fb, fa);
    LargerTimes(x * fb, y * fa, wa, wb);
  }

  lemma CheapNeverLoses(x: real, y: real, wa: real, wb: real, fa: real, fb: real, ca: real, cb: real)
    requires 0.0 < x <= y && 0.0 < wa <= wb && 0.0 < fb && 0.0 < ca && fb * ca <= fa * cb
    ensures x * fb * (wa * ca) <= y * fa * (wb * cb)
  {
    ProductPositive(fb, ca);
    Rearranged(x, fb, wa, ca);
    Rearranged(y, fa, wb, cb);
    GoodNeverLoses(x, y, wa, wb, fa * cb, fb * ca);
  }

  lemma SameShare(a: ModelInfo, b: ModelInfo, r: RoutingRequest)
    requires a.capabilities == b.capabilities
    ensures Share(a, r) == Share(b, r)
  {
  }

  lemma BalancedFactor(qa: real, qb: real, ca: real, cb: real)
    requires 0.0 < qb <= qa && 0.0 < ca <= cb
    ensures (qb * cb + 1.0) * ca <= (qa * ca + 1.0) * cb
  {
    var c := ca * cb;
    ProductPositive(ca, cb);
    LargerTimes(qb, qa, c, c);
    assert (qb * cb + 1.0) * ca == qb * c + ca && (qa * ca + 1.0) * cb == qa * c + cb;
  }

  lemma Rearranged(x: real, f: real, w: real, c: real)
    ensures x * f * (w * c) == x * (f * c) * w
  {
    assert f * (w * c) == (f * c) * w;
  }

  // ----- escalation

  /** The quality of the first model with this id, or nothing at all. */
  ghost predicate IsQualityOf(models: seq<ModelInfo>, id: string, q: real) {
    || (q == 0.0 && forall i :: 0 <= i < |models| ==> models[i].id != id)
    || exists j :: 0 <= j < |models| && models[j].id == id && models[j].qualityScore == q
                   && forall i :: 0 <= i < j ==> models[i].id != id
  }

  lemma CurrentQualityLaw(models: seq<ModelInfo>, id: string)
    ensures IsQualityOf(models, id, CurrentQuality(models, id))
  {
    hide Lookup;
    if Lookup(models, id).Some? {
      var j := LookupIsFirst(models, id);
    } else {
      LookupMisses(models, id);
    }
  }

  lemma {:induction false} LookupIsFirst(models: seq<ModelInfo>, id: string) returns (j: nat)
    requires Lookup(models, id).Some?
    ensures j < |models| && models[j].id == id && Lookup(models, id).value == models[j]
    ensures forall i :: 0 <= i < j ==> models[i].id != id
    decreases |models|
  {
    if models[0].id == id {
      j := 0;
    } else {
      var k := LookupIsFirst(models[1..], id);
      j := k + 1;
      assert forall i :: 0 < i < j ==> models[i] == models[1..][i - 1];
    }
  }

  lemma {:induction false} LookupMisses(models: seq<ModelInfo>, id: string)
    requires Lookup(models, id).None?
    ensures forall i :: 0 <= i < |models| ==> models[i].id != id
    decreases |models|
  {
    if models != [] {
      LookupMisses(models[1..], id);
      assert forall i :: 0 < i < |models| ==> models[i] == models[1..][i - 1];
    }
  }

  /**
   * Escalation is called for by a quality below 0.6, a complexity of 0.75 or more, or an explicit request, which a
   * retry with neither the first nor the second reason does not honour. It happens if some other model fits and is
   * better.
   */
  lemma EscalationLaw(models: seq<ModelInfo>, r: RoutingRequest, current: string, retryCount: nat, q: real)
    requires IsQualityOf(models, current, q) && forall i :: 0 <= i < |models| ==> HasFigures(models[i])
    ensures Escalation(models, r, current, retryCount).Some? <==>
            && (r.observedQuality < 0.6 || 0.75 <= r.complexity || (r.escalationRequested && retryCount == 0))
            && exists i :: 0 <= i < |models| && models[i].id != current && IsFit(models[i], r)
                          && q < models[i].qualityScore
  {
    hide Score, IsFit, HasFigures;
    EscalationExactly(models, r, current, retryCount);
    CurrentQualityLaw(models, current);
    assert CurrentQuality(models, current) == q;
    forall i | 0 <= i < |models|
      ensures IsCandidate(models[i], r, current) <==> models[i].id != current && IsFit(models[i], r)
    {
      CandidatesFit(models[i], r);
    }
  }

  lemma CandidatesFit(m: ModelInfo, r: RoutingRequest)
    requires HasFigures(m)
    ensures !AtMostZero(Score(m, r)) <==> IsFit(m, r)
  {
    hide Score, Merit, Burden, Scale, Share;
    ScoreLaw(m, r);
    if IsFit(m, r) {
      OrderLaw(m, m, r);
    }
  }
}
